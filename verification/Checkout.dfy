/**
 * The checkout saga's world: one order, its stock hold, its payment, its shipment and the
 * events staged about it, and what each step and each compensation may do to them.
 */
module Checkout {
  import opened Common
  import opened Json
  import opened SagaDefinition
  import opened SagaMachine

  datatype OrderStatus = PENDING | PROCESSING_ORDER | CONFIRMED | CANCELLED

  datatype PaymentStatus = REQUIRES_ACTION | AUTHORIZED | PROCESSING | SUCCEEDED | PARTIALLY_REFUNDED | REFUNDED | CANCELED | FAILED

  datatype Payment = Payment(id: string, status: PaymentStatus)

  datatype Event = OrderConfirmed(paymentId: string, shipmentId: string) | OrderCancelled(reason: string)

  /**
   * `held` says whether the reservation made under this saga's key still holds stock; `None` is
   * a reservation that was never made. A payment and a shipment exist at most once, because their
   * services are idempotent on the step's key.
   */
  datatype World = World(
    order: Option<OrderStatus>,
    reason: Option<string>,
    held: Option<bool>,
    payment: Option<Payment>,
    shipped: bool,
    events: seq<Event>)

  /**
   * The statuses a gateway may answer with, call by call: of a payment it opens, of an authorised
   * payment it was asked to capture, of a captured payment it was asked to refund. The checkout
   * looks at the first answer only.
   */
  datatype Gateway = Gateway(opens: set<PaymentStatus>, captures: set<PaymentStatus>, refunds: set<PaymentStatus>)

  /** The statuses that mean money was taken and not given back in full. */
  const CAPTURED := {SUCCEEDED, PARTIALLY_REFUNDED}

  /** How one participant call went: as asked, without effect, or with effect but no answer. */
  datatype Fault = Fine | FailsBefore | FailsAfter

  /** A capture may also be refused because the payment is not (or no longer) authorised. */
  datatype CaptureFault = CaptureFine | CaptureFailsBefore | CaptureFailsAfter | RefusedBefore | RefusedAfter

  const CHECKOUT := Definition("order.checkout",
                               [Step("accept-order", Compensatable),
                                Step("reserve-stock", Compensatable),
                                Step("charge-payment", Compensatable),
                                Step("create-shipment", Pivot),
                                Step("confirm-order", Retriable)])

  lemma CheckoutIsWellFormed()
    ensures WellFormed(CHECKOUT)
  {
    assert SplitAt(CHECKOUT.steps, 3);
  }

  function Key(sagaId: string, step: string): string {
    sagaId + ":" + step
  }

  /** No two sagas, and no two steps of one, share a key: a saga's id, a UUID, has no colon in it. */
  lemma KeyIsOfOneStep(a: string, s: string, b: string, t: string)
    requires ':' !in a && ':' !in b && Key(a, s) == Key(b, t)
    ensures a == b && s == t
  {
    assert Key(a, s)[|a|] == ':' && Key(b, t)[|b|] == ':';
    assert |a| == |b|;
    assert a == Key(a, s)[..|a|] && b == Key(b, t)[..|a|];
    assert s == Key(a, s)[|a| + 1..] && t == Key(b, t)[|a| + 1..];
  }

  /** A state member as the code tests it: a non-empty string, or nothing. */
  function Text(state: State, key: string): (t: Option<string>)
    ensures t.Some? ==> t.value != "" && key in state && state[key] == JString(t.value)
    ensures key in state && state[key].JString? && t.None? ==> state[key].s == ""
  {
    if key in state && state[key].JString? && state[key].s != "" then Some(state[key].s) else None
  }

  predicate TakesMoney(statuses: set<PaymentStatus>) {
    SUCCEEDED in statuses || PARTIALLY_REFUNDED in statuses
  }

  predicate Captured(p: Option<Payment>) {
    p.Some? && p.value.status in CAPTURED
  }

  /** What `authorize` may create under a new reference. */
  predicate Opened(g: Gateway, p: Payment) {
    p.id != "" && p.status in g.opens
  }

  /** What capturing may make of a payment, or of the one it opens first. */
  predicate CapturedTo(g: Gateway, before: Option<Payment>, after: PaymentStatus) {
    after in g.captures && if before.Some? then before.value.status == AUTHORIZED else AUTHORIZED in g.opens
  }

  /** What refunding may make of a payment, or of the one it opens first. */
  predicate RefundedTo(g: Gateway, before: Option<Payment>, after: PaymentStatus) {
    after in g.refunds && if before.Some? then Captured(before) else TakesMoney(g.opens)
  }

  function One(key: string, value: string): Patch {
    Some(map[key := Some(JString(value))])
  }

  // ---------------------------------------------------------------- what each body may do

  predicate AcceptEffect(w: World, w': World, c: Call) {
    && w' == w.(order := w'.order, reason := w'.reason)
    && (w'.order != w.order ==> w.order == Some(PENDING) && w'.order == Some(PROCESSING_ORDER) && w'.reason == None)
    && (w'.order == w.order ==> w'.reason == w.reason)
    && (c.Returned? ==> c.patch == None && w'.order.Some? && w'.order != Some(PENDING))
    && (c.Threw? ==> !c.unretryable)
  }

  predicate CancelEffect(w: World, w': World, c: Call, reason: string) {
    && (w' == w || (w.order.Some? && w.order != Some(CANCELLED)
                    && w' == w.(order := Some(CANCELLED), reason := Some(reason), events := w.events + [OrderCancelled(reason)])))
    && (c.Returned? ==> w'.order == None || w'.order == Some(CANCELLED))
  }

  predicate ReserveEffect(w: World, w': World, c: Call, key: string) {
    && (w' == w || (w.held == None && w' == w.(held := Some(true))))
    && (c.Returned? ==> w'.held.Some? && c.patch == One("reservationId", key))
  }

  predicate ReleaseEffect(w: World, w': World, c: Call) {
    && (w' == w || (w.held == Some(true) && w' == w.(held := Some(false))))
    && (c.Returned? ==> w'.held != Some(true))
  }

  /** The payment is opened if there was none, and otherwise keeps its id. */
  predicate SamePayment(before: Option<Payment>, after: Option<Payment>) {
    after.Some? && after.value.id != "" && (before.Some? ==> after.value.id == before.value.id)
  }

  predicate ChargeEffect(g: Gateway, w: World, w': World, c: Call) {
    && w' == w.(payment := w'.payment)
    && (w'.payment != w.payment ==>
          SamePayment(w.payment, w'.payment)
          && (CapturedTo(g, w.payment, w'.payment.value.status) || (w.payment.None? && w'.payment.value.status in g.opens)))
    && (c.Returned? ==>
          && w'.payment.Some? && c.patch == One("paymentId", w'.payment.value.id)
          && (Captured(w'.payment) || CapturedTo(g, w.payment, w'.payment.value.status)))
  }

  predicate RefundEffect(g: Gateway, w: World, w': World, c: Call, paymentId: Option<string>) {
    && w' == w.(payment := w'.payment)
    && (w'.payment != w.payment ==>
          SamePayment(w.payment, w'.payment)
          && (w.payment.None? ==> paymentId == None)
          && (RefundedTo(g, w.payment, w'.payment.value.status) || (w.payment.None? && w'.payment.value.status in g.opens)))
    && (c.Returned? && (w.payment.Some? && paymentId.Some? ==> paymentId.value == w.payment.value.id) ==>
          !Captured(w'.payment) || RefundedTo(g, w.payment, w'.payment.value.status))
  }

  predicate ShipEffect(w: World, w': World, c: Call, key: string) {
    && (w' == w || w' == w.(shipped := true))
    && (c.Returned? ==> w'.shipped && c.patch == One("shipmentId", key))
  }

  predicate ConfirmEffect(w: World, w': World, c: Call, paymentId: Option<string>, shipmentId: Option<string>) {
    && (w' == w || (w.order.Some? && w.order != Some(CONFIRMED) && paymentId.Some? && shipmentId.Some?
                    && w' == w.(order := Some(CONFIRMED), reason := None,
                                events := w.events + [OrderConfirmed(paymentId.value, shipmentId.value)])))
    && (c.Returned? ==> c.patch == None && w'.order == Some(CONFIRMED) && paymentId.Some? && shipmentId.Some?)
  }

  // ---------------------------------------------------------------- the bodies

  const LOST := Threw("no answer", false)

  class CheckoutSaga {
    const gateway: Gateway
    var order: Option<OrderStatus>
    var reason: Option<string>
    var held: Option<bool>
    var payment: Option<Payment>
    var shipped: bool
    var events: seq<Event>

    constructor (gateway: Gateway)
      ensures this.gateway == gateway
      ensures Now() == World(Some(PENDING), None, None, None, false, [])
    {
      this.gateway := gateway;
      order, reason, held, payment, shipped, events := Some(PENDING), None, None, None, false, [];
    }

    ghost function Now(): World
      reads this
    {
      World(order, reason, held, payment, shipped, events)
    }

    /** Commits an order transition, with the event staged beside it, or neither. */
    method Transition(status: OrderStatus, why: Option<string>, event: Option<Event>, fault: Fault) returns (ok: bool)
      modifies this`order, this`reason, this`events
      ensures ok <==> fault == Fine && old(order).Some?
      ensures fault == FailsBefore || old(order).None? ==> Now() == old(Now())
      ensures fault != FailsBefore && old(order).Some? ==>
                Now() == old(Now()).(order := Some(status), reason := why,
                events := old(events) + if event.Some? then [event.value] else [])
    {
      if order.None? || fault == FailsBefore {
        return false;
      }
      order, reason := Some(status), why;
      if event.Some? {
        events := events + [event.value];
      }
      return fault == Fine;
    }

    method AcceptOrder(find: Fault, write: Fault) returns (c: Call)
      modifies this
      ensures AcceptEffect(old(Now()), Now(), c)
      ensures find == Fine && write == Fine && old(order).Some? ==> c.Returned?
      ensures find != Fine || write == FailsBefore ==> Now() == old(Now())
    {
      if find != Fine {
        return LOST;
      }
      if order.None? {
        return Threw("order no longer exists", false);
      }
      if order != Some(PENDING) {
        return Returned(None);
      }
      var ok := Transition(PROCESSING_ORDER, None, None, write);
      return if ok then Returned(None) else LOST;
    }

    method CancelOrder(why: string, find: Fault, write: Fault) returns (c: Call)
      modifies this
      ensures CancelEffect(old(Now()), Now(), c, why)
      ensures find == Fine && write == Fine ==> c.Returned?
      ensures find != Fine || write == FailsBefore ==> Now() == old(Now())
    {
      if find != Fine {
        return LOST;
      }
      if order.None? || order == Some(CANCELLED) {
        return Returned(None);
      }
      var ok := Transition(CANCELLED, Some(why), Some(OrderCancelled(why)), write);
      return if ok then Returned(None) else LOST;
    }

    /** `inStock` is the warehouse's answer when it has no reservation under this key yet. */
    method ReserveStock(key: string, inStock: bool, reserve: Fault) returns (c: Call)
      modifies this
      ensures ReserveEffect(old(Now()), Now(), c, key)
      ensures reserve == Fine && (old(held).Some? || inStock) ==> c.Returned?
      ensures reserve == FailsBefore ==> Now() == old(Now())
      ensures old(held) == None && !inStock && reserve == Fine ==> c.Threw? && c.unretryable
    {
      if reserve == FailsBefore {
        return LOST;
      }
      if held.None? {
        if !inStock {
          return Threw("out of stock", true);
        }
        held := Some(true);
      }
      return if reserve == Fine then Returned(One("reservationId", key)) else LOST;
    }

    method ReleaseStock(release: Fault) returns (c: Call)
      modifies this
      ensures ReleaseEffect(old(Now()), Now(), c)
      ensures release == Fine ==> c.Returned?
      ensures release == FailsBefore ==> Now() == old(Now())
    {
      if release == FailsBefore {
        return LOST;
      }
      if held == Some(true) {
        held := Some(false);
      }
      return if release == Fine then Returned(None) else LOST;
    }

    /** Idempotent on the reference: an existing payment is returned as it stands. */
    method Authorize(made: Payment, fault: Fault) returns (p: Option<Payment>)
      requires payment.None? && fault != FailsBefore ==> Opened(gateway, made)
      modifies this`payment
      ensures payment == if old(payment) == None && fault != FailsBefore then Some(made) else old(payment)
      ensures p == if fault == Fine then payment else None
    {
      if fault == FailsBefore {
        return None;
      }
      if payment.None? {
        payment := Some(made);
      }
      return if fault == Fine then payment else None;
    }

    /**
     * Authorises, and captures what is authorised. `answer` is the status the capture leaves the
     * payment in, which the step does not look at.
     */
    method ChargePayment(made: Payment, authorize: Fault, answer: PaymentStatus, capture: CaptureFault, find: Fault) returns (c: Call)
      requires payment.None? ==> Opened(gateway, made)
      requires payment.Some? ==> payment.value.id != ""
      requires capture == CaptureFailsBefore || capture == RefusedBefore || answer in gateway.captures
      modifies this
      ensures ChargeEffect(gateway, old(Now()), Now(), c)
      ensures authorize == FailsBefore ==> Now() == old(Now())
      ensures var p := if old(payment).Some? then old(payment).value else made;
              && (authorize == Fine && capture == CaptureFine && p.status == AUTHORIZED ==>
                    c.Returned? && payment == Some(p.(status := answer)))
              && (authorize == Fine && p.status in CAPTURED ==> c.Returned? && payment == Some(p))
              && (authorize == Fine && p.status != AUTHORIZED && p.status !in CAPTURED ==>
                    c.Threw? && c.unretryable && payment == Some(p))
    {
      var authorized := Authorize(made, authorize);
      if authorized.None? {
        return LOST;
      }
      c := CaptureIfNeeded(authorized.value, answer, capture, find);
    }

    method CaptureIfNeeded(p: Payment, answer: PaymentStatus, capture: CaptureFault, find: Fault) returns (c: Call)
      requires payment == Some(p)
      requires capture == CaptureFailsBefore || capture == RefusedBefore || answer in gateway.captures
      modifies this`payment
      ensures payment == Some(if p.status == AUTHORIZED && capture != CaptureFailsBefore && capture != RefusedBefore
                              then p.(status := answer) else p)
      ensures c.Returned? ==> c.patch == One("paymentId", p.id)
      ensures c.Returned? <==>
              || p.status in CAPTURED
              || (p.status == AUTHORIZED && capture == CaptureFine)
              || (p.status == AUTHORIZED && capture == RefusedAfter && find == Fine && answer in CAPTURED)
      ensures c.Threw? && c.unretryable <==>
              || (p.status !in CAPTURED && p.status != AUTHORIZED)
              || (p.status == AUTHORIZED && find == Fine && (capture == RefusedBefore || (capture == RefusedAfter && answer !in CAPTURED)))
    {
      if p.status == SUCCEEDED || p.status == PARTIALLY_REFUNDED {
        return Returned(One("paymentId", p.id));
      }
      if p.status != AUTHORIZED {
        return Threw("cannot be captured without the buyer", true);
      }
      if capture == CaptureFailsBefore {
        return LOST;
      }
      if capture != RefusedBefore {
        payment := Some(p.(status := answer));
      }
      if capture == CaptureFine {
        return Returned(One("paymentId", p.id));
      }
      if capture == CaptureFailsAfter || find != Fine {
        return LOST;
      }
      if payment.value.status == SUCCEEDED || payment.value.status == PARTIALLY_REFUNDED {
        return Returned(One("paymentId", p.id));
      }
      return Threw("could not be captured", true);
    }

    /** Finds the payment by its id, or by its reference; `found` is what the compensation goes by. */
    method ResolvePayment(paymentId: Option<string>, made: Payment, resolve: Fault) returns (ok: bool, found: Option<Payment>)
      requires payment.None? && paymentId.None? ==> Opened(gateway, made)
      modifies this`payment
      ensures ok == (resolve == Fine)
      ensures payment == if old(payment).None? && paymentId.None? && resolve != FailsBefore then Some(made) else old(payment)
      ensures ok ==> found == if paymentId.Some? && (payment.None? || payment.value.id != paymentId.value) then None else payment
    {
      if paymentId.Some? {
        if resolve != Fine {
          return false, None;
        }
        return true, if payment.Some? && payment.value.id == paymentId.value then payment else None;
      }
      found := Authorize(made, resolve);
      return resolve == Fine, found;
    }

    /** Refunds what is captured. `answer` is the status the refund leaves the payment in, not looked at. */
    method RefundPayment(paymentId: Option<string>, made: Payment, resolve: Fault, answer: PaymentStatus, refund: Fault) returns (c: Call)
      requires payment.None? && paymentId.None? ==> Opened(gateway, made)
      requires payment.Some? ==> payment.value.id != ""
      requires refund == FailsBefore || answer in gateway.refunds
      modifies this
      ensures RefundEffect(gateway, old(Now()), Now(), c, paymentId)
      ensures resolve == Fine && refund == Fine ==> c.Returned?
      ensures resolve == FailsBefore ==> Now() == old(Now())
      ensures resolve == Fine && refund != FailsBefore && Captured(old(payment)) && (paymentId.Some? ==> paymentId.value == old(payment).value.id) ==>
                payment == Some(old(payment).value.(status := answer))
      ensures resolve == Fine && old(payment).Some? && !Captured(old(payment)) ==> c.Returned? && payment == old(payment)
    {
      var ok, found := ResolvePayment(paymentId, made, resolve);
      if !ok {
        return LOST;
      }
      if found.None? || found.value.status == REFUNDED {
        return Returned(None);
      }
      if found.value.status != SUCCEEDED && found.value.status != PARTIALLY_REFUNDED {
        return Returned(None);
      }
      if refund == FailsBefore {
        return LOST;
      }
      payment := Some(found.value.(status := answer));
      return if refund == Fine then Returned(None) else LOST;
    }

    method CreateShipment(key: string, serviced: bool, create: Fault) returns (c: Call)
      modifies this
      ensures ShipEffect(old(Now()), Now(), c, key)
      ensures create == Fine && (old(shipped) || serviced) ==> c.Returned?
      ensures create == FailsBefore ==> Now() == old(Now())
      ensures !old(shipped) && !serviced && create == Fine ==> c.Threw? && c.unretryable && Now() == old(Now())
    {
      if create == FailsBefore {
        return LOST;
      }
      if !shipped {
        if !serviced {
          return Threw("unserviced destination", true);
        }
        shipped := true;
      }
      return if create == Fine then Returned(One("shipmentId", key)) else LOST;
    }

    method ConfirmOrder(paymentId: Option<string>, shipmentId: Option<string>, find: Fault, write: Fault) returns (c: Call)
      modifies this
      ensures ConfirmEffect(old(Now()), Now(), c, paymentId, shipmentId)
      ensures find == Fine && write == Fine && old(order).Some? && paymentId.Some? && shipmentId.Some? ==> c.Returned?
      ensures find != Fine || write == FailsBefore ==> Now() == old(Now())
      ensures c.Threw? ==> !c.unretryable
    {
      if paymentId.None? || shipmentId.None? {
        return Threw("reached confirm-order without a payment or a shipment", false);
      }
      if find != Fine {
        return LOST;
      }
      if order.None? {
        return Threw("order no longer exists", false);
      }
      if order == Some(CONFIRMED) {
        return Returned(None);
      }
      var ok := Transition(CONFIRMED, None, Some(OrderConfirmed(paymentId.value, shipmentId.value)), write);
      return if ok then Returned(None) else LOST;
    }
  }
}
