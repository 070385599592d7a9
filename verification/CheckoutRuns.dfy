/**
 * Checkout end to end: what a finished checkout means for the order, the stock, the payment and
 * the events, over every run in which each participant call may succeed, fail, or take effect
 * and then fail, and in which a step body may run without its outcome being saved.
 *
 * The bodies of one saga do not overlap in time; the row itself is protected in any case.
 */
module CheckoutRuns {
  import opened Backoff
  import opened Common
  import opened SagaMachine
  import opened SagaShape
  import opened Checkout

  datatype Config = Config(gateway: Gateway, policy: Policy, sagaId: string)

  datatype Move =
    | Saved(after: World, turn: Turn)
      /** The body ran, but its runner crashed or lost its lease before the save. */
    | Unsaved(after: World, call: Call)
      /** A payment changes by itself: see `ChangesTo`. */
    | Changes(status: PaymentStatus)

  /** A payment that is processing settles, one waiting for the buyer is approved, an authorisation lapses. */
  predicate ChangesTo(before: PaymentStatus, after: PaymentStatus) {
    match before
    case PROCESSING => after == SUCCEEDED || after == FAILED
    case REQUIRES_ACTION => after == AUTHORIZED || after == CANCELED
    case AUTHORIZED => after == CANCELED
    case _ => false
  }

  /** The message of the failure the saga turned around at. */
  function Cause(r: Record): string {
    match LastForwardFailure(r.log)
    case Some(e) => if e.error.Some? then e.error.value else "unknown failure"
    case None => "unknown failure"
  }

  /** What running the body at the record's cursor may do to the world. */
  predicate Body(c: Config, r: Record, w: World, w': World, call: Call) {
    if r.status == COMPENSATING then
      match r.cursor
      case 0 => CancelEffect(w, w', call, Cause(r))
      case 1 => ReleaseEffect(w, w', call)
      case 2 => RefundEffect(c.gateway, w, w', call, Text(r.state, "paymentId"))
      case _ => w' == w
    else
      match r.cursor
      case 0 => AcceptEffect(w, w', call)
      case 1 => ReserveEffect(w, w', call, Key(c.sagaId, "reserve-stock"))
      case 2 => ChargeEffect(c.gateway, w, w', call)
      case 3 => ShipEffect(w, w', call, Key(c.sagaId, "create-shipment"))
      case _ => ConfirmEffect(w, w', call, Text(r.state, "paymentId"), Text(r.state, "shipmentId"))
  }

  predicate Possible(c: Config, r: Record, w: World, m: Move) {
    match m
    case Saved(after, turn) => !IsTerminal(r.status) && Body(c, r, w, after, turn.call)
    case Unsaved(after, call) => !IsTerminal(r.status) && Body(c, r, w, after, call)
    case Changes(status) => w.payment.Some? && ChangesTo(w.payment.value.status, status)
  }

  function RecordAfter(c: Config, r: Record, m: Move): Record {
    match m
    case Saved(_, turn) => Next(CHECKOUT, c.policy, r, turn)
    case _ => r
  }

  function WorldAfter(w: World, m: Move): World {
    match m
    case Saved(after, _) => after
    case Unsaved(after, _) => after
    case Changes(status) => if w.payment.Some? then w.(payment := Some(w.payment.value.(status := status))) else w
  }

  datatype Point = Point(r: Record, w: World)

  predicate Follows(c: Config, p: Point, m: Move, p': Point) {
    Possible(c, p.r, p.w, m) && p' == Point(RecordAfter(c, p.r, m), WorldAfter(p.w, m))
  }

  /** A run: the points it goes through and the moves between them. */
  predicate IsRun(c: Config, points: seq<Point>, moves: seq<Move>) {
    && |points| == |moves| + 1
    && Initial(c, points[0])
    && forall i :: 0 <= i < |moves| ==> Follows(c, points[i], moves[i], points[i + 1])
  }

  predicate Initial(c: Config, p: Point) {
    && p.r == Start(CHECKOUT.name, p.r.state, p.r.nextAttemptAt)
    && Text(p.r.state, "paymentId") == None
    && Text(p.r.state, "shipmentId") == None
    && p.w == World(Some(PENDING), None, None, None, false, [])
  }

  /** What some run gets to. */
  ghost predicate Reaches(c: Config, p: Point) {
    exists points, moves :: IsRun(c, points, moves) && points[|moves|] == p
  }

  lemma ReachesMore(c: Config, p: Point, m: Move)
    requires Reaches(c, p) && Possible(c, p.r, p.w, m)
    ensures Reaches(c, Point(RecordAfter(c, p.r, m), WorldAfter(p.w, m)))
  {
    var points, moves :| IsRun(c, points, moves) && points[|moves|] == p;
    var q := Point(RecordAfter(c, p.r, m), WorldAfter(p.w, m));
    var points', moves' := points + [q], moves + [m];
    forall i | 0 <= i < |moves'|
      ensures Follows(c, points'[i], moves'[i], points'[i + 1])
    {
      if i < |moves| {
        assert Follows(c, points[i], moves[i], points[i + 1]);
      }
    }
    assert IsRun(c, points', moves') && points'[|moves'|] == q;
  }

  // ---------------------------------------------------------------- what is promised

  /** Everything the customer was promised happened, and was announced once. */
  predicate Delivered(c: Config, w: World) {
    && w.order == Some(CONFIRMED)
    && w.held == Some(true)
    && Captured(w.payment)
    && w.shipped
    && w.events == [OrderConfirmed(w.payment.value.id, Key(c.sagaId, "create-shipment"))]
  }

  /** Everything that can be undone was, the order says why, and it was announced once. */
  predicate Undone(r: Record, w: World) {
    && w.order == Some(CANCELLED)
    && w.reason == Some(Cause(r))
    && w.held != Some(true)
    && !Captured(w.payment)
    && w.events == [OrderCancelled(Cause(r))]
  }

  /** A completed checkout delivered, and a compensated one undid, everything. */
  predicate EndsAsPromised(c: Config, p: Point) {
    && (p.r.status == COMPLETED ==> Delivered(c, p.w))
    && (p.r.status == COMPENSATED ==> Undone(p.r, p.w))
  }

  /** A payment can come to be authorised: opened so, or approved by the buyer later. */
  predicate CanAuthorize(g: Gateway) {
    AUTHORIZED in g.opens || REQUIRES_ACTION in g.opens
  }

  /** Money can be taken: by opening a payment, or by capturing one. */
  predicate CanTakeMoney(g: Gateway) {
    TakesMoney(g.opens) || (CanAuthorize(g) && TakesMoney(g.captures))
  }

  /**
   * The gateway's answers can be taken at their word: a payment is never opened still processing, a
   * capture that is answered took the money, and a refund that is answered gave it back and is not
   * still processing.
   */
  predicate AnswersAreFinal(g: Gateway) {
    && PROCESSING !in g.opens
    && (CanAuthorize(g) ==> g.captures <= CAPTURED)
    && (CanTakeMoney(g) ==> g.refunds !! CAPTURED + {PROCESSING})
  }

  // ---------------------------------------------------------------- invariant

  /** A payment's status while the saga has only gone forward. */
  predicate ForwardStatus(g: Gateway, s: PaymentStatus) {
    || s in g.opens
    || s == CANCELED
    || (CanAuthorize(g) && (s == AUTHORIZED || s in g.captures))
  }

  predicate ForwardWorld(g: Config, r: Record, w: World) {
    var c := r.cursor;
    && (if c == 0 then w.order == Some(PENDING) || w.order == Some(PROCESSING_ORDER)
        else w.order == Some(PROCESSING_ORDER) || (c == 4 && w.order == Some(CONFIRMED)))
    && (c == 0 ==> w.held == None)
    && (c == 1 ==> w.held == None || w.held == Some(true))
    && (c >= 2 ==> w.held == Some(true))
    && (c < 2 ==> w.payment == None)
    && (w.payment.Some? ==> w.payment.value.id != "" && ForwardStatus(g.gateway, w.payment.value.status))
    && (c >= 3 ==> Captured(w.payment) && Text(r.state, "paymentId") == Some(w.payment.value.id))
    && (c < 3 ==> Text(r.state, "paymentId") == None && !w.shipped)
    && (c >= 4 ==> w.shipped && Text(r.state, "shipmentId") == Some(Key(g.sagaId, "create-shipment")))
    && w.events == if w.order == Some(CONFIRMED) then ConfirmedEvents(r) else []
  }

  function ConfirmedEvents(r: Record): seq<Event> {
    var p, s := Text(r.state, "paymentId"), Text(r.state, "shipmentId");
    if p.Some? && s.Some? then [OrderConfirmed(p.value, s.value)] else []
  }

  predicate BackwardWorld(c: Config, r: Record, w: World) {
    && w.order.Some? && w.order != Some(CONFIRMED)
    && (w.order == Some(CANCELLED) ==> r.cursor <= 0 && w.reason == Some(Cause(r)))
    && w.events == (if w.order == Some(CANCELLED) then [OrderCancelled(Cause(r))] else [])
    && (r.cursor < 1 ==> w.held != Some(true))
    && (r.cursor < 2 ==> !Captured(w.payment))
    && (w.payment.Some? ==> BackwardPayment(c, r, w.payment.value))
    && (r.cursor == -1 ==> w.order == Some(CANCELLED))
  }

  predicate BackwardPayment(c: Config, r: Record, p: Payment) {
    && p.id != "" && p.status != PROCESSING && (p.status in CAPTURED ==> CanTakeMoney(c.gateway))
    && (Text(r.state, "paymentId").Some? ==> Text(r.state, "paymentId").value == p.id)
  }

  predicate Good(c: Config, p: Point) {
    Shape(CHECKOUT, c.policy, p.r) && GoodWorld(c, p.r, p.w)
  }

  predicate GoodWorld(c: Config, r: Record, w: World) {
    match r.status
    case RUNNING => ForwardWorld(c, r, w)
    case COMPLETED => Delivered(c, w)
    case COMPENSATING => BackwardWorld(c, r, w)
    case COMPENSATED => BackwardWorld(c, r, w)
    case STUCK => true
  }

  // ---------------------------------------------------------------- preservation

  lemma PatchedText(state: State, key: string, value: string, other: string)
    requires value != ""
    ensures Text(Merged(state, One(key, value)), key) == Some(value)
    ensures other != key ==> Text(Merged(state, One(key, value)), other) == Text(state, other)
  {
  }

  lemma ForwardBody(c: Config, r: Record, w: World, w': World, call: Call)
    requires AnswersAreFinal(c.gateway)
    requires Good(c, Point(r, w)) && r.status == RUNNING && Body(c, r, w, w', call)
    ensures ForwardWorld(c, r, w')
  {
  }

  lemma ForwardSaved(c: Config, r: Record, w: World, w': World, turn: Turn)
    requires AnswersAreFinal(c.gateway)
    requires Good(c, Point(r, w)) && r.status == RUNNING && Body(c, r, w, w', turn.call)
    requires turn.call.Returned?
    ensures var r' := Next(CHECKOUT, c.policy, r, turn);
            if r'.status == COMPLETED then Delivered(c, w') else r'.status == RUNNING && ForwardWorld(c, r', w')
  {
    ForwardBody(c, r, w, w', turn.call);
    ShapeIsResumable(CHECKOUT, c.policy, r);
    var ship := Key(c.sagaId, "create-shipment");
    match r.cursor
    case 0 =>
    case 1 => PatchedText(r.state, "reservationId", Key(c.sagaId, "reserve-stock"), "paymentId");
    case 2 => PatchedText(r.state, "paymentId", w'.payment.value.id, "shipmentId");
    case 3 => PatchedText(r.state, "shipmentId", ship, "paymentId");
    case _ =>
  }

  /** A step that fails changes neither the cursor nor the state. */
  lemma FailureMovesNothing(c: Config, r: Record, turn: Turn)
    requires Shape(CHECKOUT, c.policy, r) && r.status == RUNNING && turn.call.Threw?
    ensures var r' := Next(CHECKOUT, c.policy, r, turn);
            && r'.cursor == r.cursor && r'.state == r.state
            && (r'.status == RUNNING || r'.status == STUCK || r'.status == COMPENSATING)
            && (r'.status == COMPENSATING ==> r.cursor <= 3)
  {
    ShapeIsResumable(CHECKOUT, c.policy, r);
  }

  lemma TurningAround(c: Config, r: Record, w: World, r': Record)
    requires AnswersAreFinal(c.gateway) && ForwardWorld(c, r, w) && 0 <= r.cursor <= 3
    requires r'.cursor == r.cursor && r'.state == r.state
    ensures BackwardWorld(c, r', w)
  {
  }

  lemma ForwardFailed(c: Config, r: Record, w: World, w': World, turn: Turn)
    requires AnswersAreFinal(c.gateway)
    requires Good(c, Point(r, w)) && r.status == RUNNING && Body(c, r, w, w', turn.call)
    requires turn.call.Threw?
    ensures GoodWorld(c, Next(CHECKOUT, c.policy, r, turn), w')
  {
    var r' := Next(CHECKOUT, c.policy, r, turn);
    assert ForwardWorld(c, r, w') by {
      ForwardBody(c, r, w, w', turn.call);
    }
    FailureMovesNothing(c, r, turn);
    if r'.status == COMPENSATING {
      TurningAround(c, r, w', r');
    }
  }

  lemma BackwardBody(c: Config, r: Record, w: World, w': World, call: Call)
    requires AnswersAreFinal(c.gateway)
    requires Good(c, Point(r, w)) && r.status == COMPENSATING && Body(c, r, w, w', call)
    ensures BackwardWorld(c, r, w')
  {
  }

  /** Going backward, a saved body moves the cursor down by one exactly when it returned or was skipped. */
  lemma BackwardRecord(c: Config, r: Record, turn: Turn)
    requires Shape(CHECKOUT, c.policy, r) && r.status == COMPENSATING
    ensures var r' := Next(CHECKOUT, c.policy, r, turn);
            && r'.state == r.state && Cause(r') == Cause(r)
            && (r'.status == COMPENSATING || r'.status == STUCK || r'.status == COMPENSATED)
            && (r'.status == COMPENSATED ==> r'.cursor == -1 == r.cursor - 1)
            && (r'.status == COMPENSATING ==> r'.cursor == r.cursor || r'.cursor == r.cursor - 1)
            && (r'.cursor != r.cursor ==> turn.call.Returned? || r.cursor == 3)
            && 0 <= r.cursor <= 3
  {
    ShapeIsResumable(CHECKOUT, c.policy, r);
    LogAppend(r.log, StepOnce(CHECKOUT, c.policy, r, turn).value.entry);
  }

  lemma SteppingBack(c: Config, r: Record, w: World, w': World, call: Call, r': Record)
    requires AnswersAreFinal(c.gateway)
    requires BackwardWorld(c, r, w) && r.status == COMPENSATING && Body(c, r, w, w', call) && BackwardWorld(c, r, w')
    requires 0 <= r.cursor <= 3 && r'.cursor == r.cursor - 1 && r'.state == r.state && Cause(r') == Cause(r)
    requires call.Returned? || r.cursor == 3
    ensures BackwardWorld(c, r', w')
  {
  }

  lemma BackwardSaved(c: Config, r: Record, w: World, w': World, turn: Turn)
    requires AnswersAreFinal(c.gateway)
    requires Good(c, Point(r, w)) && r.status == COMPENSATING && Body(c, r, w, w', turn.call)
    ensures GoodWorld(c, Next(CHECKOUT, c.policy, r, turn), w')
  {
    var r' := Next(CHECKOUT, c.policy, r, turn);
    assert BackwardWorld(c, r, w') by {
      BackwardBody(c, r, w, w', turn.call);
    }
    BackwardRecord(c, r, turn);
    if r'.cursor != r.cursor {
      SteppingBack(c, r, w, w', turn.call, r');
    }
  }

  lemma MoveKeepsGood(c: Config, p: Point, m: Move, p': Point)
    requires AnswersAreFinal(c.gateway)
    requires Good(c, p) && Follows(c, p, m, p')
    ensures Good(c, p')
  {
    match m
    case Saved(after, turn) =>
      NextKeepsShape(CHECKOUT, c.policy, p.r, turn);
      if p.r.status == COMPENSATING {
        BackwardSaved(c, p.r, p.w, after, turn);
      } else if turn.call.Returned? {
        ForwardSaved(c, p.r, p.w, after, turn);
      } else {
        ForwardFailed(c, p.r, p.w, after, turn);
      }
    case Unsaved(after, call) =>
      if p.r.status == COMPENSATING {
        BackwardBody(c, p.r, p.w, after, call);
      } else {
        ForwardBody(c, p.r, p.w, after, call);
      }
    case Changes(_) =>
  }

  lemma {:induction false} RunKeepsGood(c: Config, points: seq<Point>, moves: seq<Move>, i: nat)
    requires AnswersAreFinal(c.gateway) && IsRun(c, points, moves) && i < |points|
    ensures Good(c, points[i])
  {
    if i == 0 {
      CheckoutIsWellFormed();
      ReachableShape(CHECKOUT, c.policy, points[0].r, []);
    } else {
      RunKeepsGood(c, points, moves, i - 1);
      assert Follows(c, points[i - 1], moves[i - 1], points[i]);
      MoveKeepsGood(c, points[i - 1], moves[i - 1], points[i]);
    }
  }

  /** With answers that are final, every run ends as promised. */
  lemma CheckoutEndsAsPromised(c: Config, points: seq<Point>, moves: seq<Move>, i: nat)
    requires AnswersAreFinal(c.gateway) && IsRun(c, points, moves) && i < |points|
    ensures EndsAsPromised(c, points[i])
  {
    RunKeepsGood(c, points, moves, i);
  }

  // ---------------------------------------------------------------- getting somewhere

  /** Where a record stands, and what its state knows of the payment. */
  predicate Stands(c: Config, r: Record, status: Status, cursor: int, paymentId: Option<string>) {
    Shape(CHECKOUT, c.policy, r) && r.status == status && r.cursor == cursor && Text(r.state, "paymentId") == paymentId
  }

  lemma ReturnedGoesForward(c: Config, r: Record, turn: Turn)
    requires Shape(CHECKOUT, c.policy, r) && r.status == RUNNING && turn.call.Returned?
    ensures var r' := Next(CHECKOUT, c.policy, r, turn);
            Shape(CHECKOUT, c.policy, r') && r'.cursor == r.cursor + 1 && r'.state == Merged(r.state, turn.call.patch)
            && r'.status == if r.cursor == 4 then COMPLETED else RUNNING
  {
    NextKeepsShape(CHECKOUT, c.policy, r, turn);
  }

  lemma ReturnedGoesBackward(c: Config, r: Record, turn: Turn)
    requires Shape(CHECKOUT, c.policy, r) && r.status == COMPENSATING && turn.call.Returned?
    ensures var r' := Next(CHECKOUT, c.policy, r, turn);
            Shape(CHECKOUT, c.policy, r') && r'.cursor == r.cursor - 1 && r'.state == r.state
            && r'.status == if r.cursor == 0 then COMPENSATED else COMPENSATING
  {
    NextKeepsShape(CHECKOUT, c.policy, r, turn);
  }

  lemma UnretryableTurnsAround(c: Config, r: Record, turn: Turn)
    requires Shape(CHECKOUT, c.policy, r) && r.status == RUNNING && r.cursor <= 3
    requires turn.call.Threw? && turn.call.unretryable
    ensures var r' := Next(CHECKOUT, c.policy, r, turn);
            Shape(CHECKOUT, c.policy, r') && r'.status == COMPENSATING && r'.cursor == r.cursor && r'.state == r.state
  {
    NextKeepsShape(CHECKOUT, c.policy, r, turn);
    ShapeIsResumable(CHECKOUT, c.policy, r);
  }

  /** A step returns, and the saga goes on. */
  lemma GoForward(c: Config, p: Point, after: World, patch: Patch) returns (q: Point)
    requires Reaches(c, p) && Shape(CHECKOUT, c.policy, p.r) && p.r.status == RUNNING && Body(c, p.r, p.w, after, Returned(patch))
    ensures Reaches(c, q) && q.w == after && Shape(CHECKOUT, c.policy, q.r)
    ensures q.r.cursor == p.r.cursor + 1 && q.r.state == Merged(p.r.state, patch)
    ensures q.r.status == if p.r.cursor == 4 then COMPLETED else RUNNING
  {
    var turn := Turn(Returned(patch), 0, 0.0);
    ReachesMore(c, p, Saved(after, turn));
    ReturnedGoesForward(c, p.r, turn);
    q := Point(Next(CHECKOUT, c.policy, p.r, turn), after);
  }

  /** A compensation returns, and the saga goes further back. */
  lemma GoBack(c: Config, p: Point, after: World) returns (q: Point)
    requires Reaches(c, p) && Shape(CHECKOUT, c.policy, p.r) && p.r.status == COMPENSATING && Body(c, p.r, p.w, after, Returned(None))
    ensures Reaches(c, q) && q.w == after && Shape(CHECKOUT, c.policy, q.r)
    ensures q.r.cursor == p.r.cursor - 1 && q.r.state == p.r.state
    ensures q.r.status == if p.r.cursor == 0 then COMPENSATED else COMPENSATING
  {
    var turn := Turn(Returned(None), 0, 0.0);
    ReachesMore(c, p, Saved(after, turn));
    ReturnedGoesBackward(c, p.r, turn);
    q := Point(Next(CHECKOUT, c.policy, p.r, turn), after);
  }

  /** A step fails for good, and the saga turns round. */
  lemma TurnRound(c: Config, p: Point, message: string) returns (q: Point)
    requires Reaches(c, p) && Shape(CHECKOUT, c.policy, p.r) && p.r.status == RUNNING && p.r.cursor <= 3
    requires Body(c, p.r, p.w, p.w, Threw(message, true))
    ensures Reaches(c, q) && q.w == p.w && Shape(CHECKOUT, c.policy, q.r)
    ensures q.r.cursor == p.r.cursor && q.r.state == p.r.state && q.r.status == COMPENSATING
  {
    var turn := Turn(Threw(message, true), 0, 0.0);
    ReachesMore(c, p, Saved(p.w, turn));
    UnretryableTurnsAround(c, p.r, turn);
    q := Point(Next(CHECKOUT, c.policy, p.r, turn), p.w);
  }

  /** Nothing has happened yet. */
  lemma Placed(c: Config) returns (p: Point)
    ensures Reaches(c, p) && Stands(c, p.r, RUNNING, 0, None)
    ensures p.w == World(Some(PENDING), None, None, None, false, [])
  {
    p := Point(Start(CHECKOUT.name, map[], 0), World(Some(PENDING), None, None, None, false, []));
    CheckoutIsWellFormed();
    ReachableShape(CHECKOUT, c.policy, p.r, []);
    assert Initial(c, p);
    var none: seq<Move> := [];
    assert IsRun(c, [p], none) && [p][|none|] == p;
  }

  /** The order is accepted and the stock held; the payment is next. */
  lemma Begun(c: Config) returns (p: Point)
    ensures Reaches(c, p) && Stands(c, p.r, RUNNING, 2, None)
    ensures p.w == World(Some(PROCESSING_ORDER), None, Some(true), None, false, [])
  {
    p := Placed(c);
    p := GoForward(c, p, p.w.(order := Some(PROCESSING_ORDER)), None);
    var key := Key(c.sagaId, "reserve-stock");
    PatchedText(p.r.state, "reservationId", key, "paymentId");
    p := GoForward(c, p, p.w.(held := Some(true)), One("reservationId", key));
  }

  function WithPayment(status: PaymentStatus): World {
    World(Some(PROCESSING_ORDER), None, Some(true), Some(Payment("p", status)), false, [])
  }

  /** A payment was opened in any status the gateway opens payments in, and the answer lost. */
  lemma OpenedOnly(c: Config, status: PaymentStatus) returns (p: Point)
    requires status in c.gateway.opens
    ensures Reaches(c, p) && Stands(c, p.r, RUNNING, 2, None) && p.w == WithPayment(status)
  {
    p := Begun(c);
    var m := Unsaved(WithPayment(status), LOST);
    ReachesMore(c, p, m);
    p := Point(RecordAfter(c, p.r, m), WorldAfter(p.w, m));
  }

  /** A payment is authorised, at once or once the buyer approved it. */
  lemma AuthorizedOnly(c: Config) returns (p: Point)
    requires CanAuthorize(c.gateway)
    ensures Reaches(c, p) && Stands(c, p.r, RUNNING, 2, None) && p.w == WithPayment(AUTHORIZED)
  {
    if AUTHORIZED in c.gateway.opens {
      p := OpenedOnly(c, AUTHORIZED);
    } else {
      p := OpenedOnly(c, REQUIRES_ACTION);
      var m := Changes(AUTHORIZED);
      ReachesMore(c, p, m);
      p := Point(RecordAfter(c, p.r, m), WorldAfter(p.w, m));
    }
  }

  /** The charge returns, with the payment in a status the step accepted. */
  lemma Charged(c: Config, from: Point, before: PaymentStatus, after: PaymentStatus) returns (p: Point)
    requires Reaches(c, from) && Stands(c, from.r, RUNNING, 2, None) && from.w == WithPayment(before)
    requires (before == AUTHORIZED && after in c.gateway.captures) || (before == after && before in CAPTURED)
    ensures Reaches(c, p) && Stands(c, p.r, RUNNING, 3, Some("p")) && p.w == WithPayment(after)
  {
    PatchedText(from.r.state, "paymentId", "p", "shipmentId");
    p := GoForward(c, from, WithPayment(after), One("paymentId", "p"));
  }

  /** And then is shipped and confirmed, whatever the status. */
  lemma Completed(c: Config, from: Point, status: PaymentStatus) returns (p: Point)
    requires Reaches(c, from) && Stands(c, from.r, RUNNING, 3, Some("p")) && from.w == WithPayment(status)
    ensures Reaches(c, p) && p.r.status == COMPLETED
    ensures p.w == World(Some(CONFIRMED), None, Some(true), Some(Payment("p", status)), true,
                         [OrderConfirmed("p", Key(c.sagaId, "create-shipment"))])
  {
    var key := Key(c.sagaId, "create-shipment");
    PatchedText(from.r.state, "shipmentId", key, "paymentId");
    p := GoForward(c, from, from.w.(shipped := true), One("shipmentId", key));
    p := GoForward(c, p, p.w.(order := Some(CONFIRMED), events := [OrderConfirmed("p", key)]), None);
  }

  /** Past the refund: the stock is released, the order cancelled, the payment as it was left. */
  lemma Compensated(c: Config, from: Point, paymentId: Option<string>, status: PaymentStatus) returns (p: Point)
    requires Reaches(c, from) && Stands(c, from.r, COMPENSATING, 1, paymentId) && from.w == WithPayment(status)
    ensures Reaches(c, p) && p.r.status == COMPENSATED && p.w.payment == Some(Payment("p", status))
  {
    p := GoBack(c, from, from.w.(held := Some(false)));
    var why := Cause(p.r);
    p := GoBack(c, p, p.w.(order := Some(CANCELLED), reason := Some(why), events := [OrderCancelled(why)]));
  }

  /** The destination is refused after the charge, and the saga comes back to the refund. */
  lemma BackAtRefund(c: Config, from: Point, status: PaymentStatus) returns (p: Point)
    requires Reaches(c, from) && Stands(c, from.r, RUNNING, 3, Some("p")) && from.w == WithPayment(status)
    ensures Reaches(c, p) && Stands(c, p.r, COMPENSATING, 2, Some("p")) && p.w == WithPayment(status)
  {
    p := TurnRound(c, from, "unserviced destination");
    p := GoBack(c, p, p.w);
  }

  /** The refund returns, leaving the payment as it was because nothing seemed captured, or as the gateway answered. */
  lemma Refunded(c: Config, from: Point, paymentId: Option<string>, before: PaymentStatus, after: PaymentStatus) returns (p: Point)
    requires Reaches(c, from) && Stands(c, from.r, COMPENSATING, 2, paymentId) && from.w == WithPayment(before)
    requires paymentId.Some? ==> paymentId.value == "p"
    requires (before in CAPTURED && after in c.gateway.refunds) || (before !in CAPTURED && after == before)
    ensures Reaches(c, p) && Stands(c, p.r, COMPENSATING, 1, paymentId) && p.w == WithPayment(after)
  {
    p := GoBack(c, from, WithPayment(after));
  }

  /** A payment still processing when the saga ended may be captured afterwards. */
  lemma SettledLate(c: Config, from: Point) returns (p: Point)
    requires Reaches(c, from) && from.r.status == COMPENSATED && from.w.payment == Some(Payment("p", PROCESSING))
    ensures Reaches(c, p) && p.r.status == COMPENSATED && Captured(p.w.payment)
  {
    var m := Changes(SUCCEEDED);
    ReachesMore(c, from, m);
    p := Point(RecordAfter(c, from.r, m), WorldAfter(from.w, m));
  }

  // ---------------------------------------------------------------- answers that are not final

  /**
   * A capture answered with anything but success is taken for success: the order is confirmed and
   * shipped, one confirmation goes out, and nothing was captured.
   */
  lemma FailedCaptureCompletes(c: Config, status: PaymentStatus) returns (p: Point)
    requires CanAuthorize(c.gateway) && status in c.gateway.captures && status !in CAPTURED
    ensures Reaches(c, p) && p.r.status == COMPLETED && !Captured(p.w.payment)
    ensures p.w.order == Some(CONFIRMED) && p.w.shipped
    ensures p.w.events == [OrderConfirmed("p", Key(c.sagaId, "create-shipment"))]
  {
    p := AuthorizedOnly(c);
    p := Charged(c, p, AUTHORIZED, status);
    p := Completed(c, p, status);
  }

  /** A capture still processing when the shipment is refused settles after the saga gave up on it. */
  lemma LateSettlementIsNotRefunded(c: Config) returns (p: Point)
    requires CanAuthorize(c.gateway) && PROCESSING in c.gateway.captures
    ensures Reaches(c, p) && p.r.status == COMPENSATED && Captured(p.w.payment)
  {
    p := AuthorizedOnly(c);
    p := Charged(c, p, AUTHORIZED, PROCESSING);
    p := BackAtRefund(c, p, PROCESSING);
    p := Refunded(c, p, Some("p"), PROCESSING, PROCESSING);
    p := Compensated(c, p, Some("p"), PROCESSING);
    p := SettledLate(c, p);
  }

  /** So does a payment that is processing from the start, which the charge itself refuses. */
  lemma OpenedProcessingIsNotRefunded(c: Config) returns (p: Point)
    requires PROCESSING in c.gateway.opens
    ensures Reaches(c, p) && p.r.status == COMPENSATED && Captured(p.w.payment)
  {
    p := OpenedOnly(c, PROCESSING);
    p := TurnRound(c, p, "cannot be captured without the buyer");
    p := Refunded(c, p, None, PROCESSING, PROCESSING);
    p := Compensated(c, p, None, PROCESSING);
    p := SettledLate(c, p);
  }

  /** The charge has taken money, one way or the other. */
  lemma MoneyTaken(c: Config) returns (p: Point, status: PaymentStatus)
    requires CanTakeMoney(c.gateway)
    ensures status in CAPTURED && Reaches(c, p) && Stands(c, p.r, RUNNING, 3, Some("p")) && p.w == WithPayment(status)
  {
    status := if SUCCEEDED in c.gateway.opens || (!TakesMoney(c.gateway.opens) && SUCCEEDED in c.gateway.captures)
    then SUCCEEDED else PARTIALLY_REFUNDED;
    if TakesMoney(c.gateway.opens) {
      p := OpenedOnly(c, status);
      p := Charged(c, p, status, status);
    } else {
      p := AuthorizedOnly(c);
      p := Charged(c, p, AUTHORIZED, status);
    }
  }

  /** A refund that answers without having refunded is taken for a refund. */
  lemma UnrefundedIsCompensated(c: Config, status: PaymentStatus) returns (p: Point)
    requires CanTakeMoney(c.gateway) && status in c.gateway.refunds && (status in CAPTURED || status == PROCESSING)
    ensures Reaches(c, p) && p.r.status == COMPENSATED && Captured(p.w.payment)
  {
    var before;
    p, before := MoneyTaken(c);
    p := BackAtRefund(c, p, before);
    p := Refunded(c, p, Some("p"), before, status);
    p := Compensated(c, p, Some("p"), status);
    if status == PROCESSING {
      p := SettledLate(c, p);
    }
  }

  /** Every run of every checkout ends as promised. */
  ghost predicate AlwaysEndsAsPromised(c: Config) {
    forall p :: Reaches(c, p) ==> EndsAsPromised(c, p)
  }

  /** Answers that are not final lead somewhere the promise is broken. */
  lemma BrokenPromise(c: Config) returns (p: Point)
    requires !AnswersAreFinal(c.gateway)
    ensures Reaches(c, p) && !EndsAsPromised(c, p)
  {
    if PROCESSING in c.gateway.opens {
      p := OpenedProcessingIsNotRefunded(c);
    } else if CanAuthorize(c.gateway) && !(c.gateway.captures <= CAPTURED) {
      var status :| status in c.gateway.captures && status !in CAPTURED;
      p := FailedCaptureCompletes(c, status);
    } else {
      var status :| status in c.gateway.refunds && status in CAPTURED + {PROCESSING};
      p := UnrefundedIsCompensated(c, status);
    }
  }

  /** Checkouts end as promised exactly on gateways whose answers are final. */
  lemma PromiseNeedsFinalAnswers(c: Config)
    ensures AlwaysEndsAsPromised(c) <==> AnswersAreFinal(c.gateway)
  {
    if AnswersAreFinal(c.gateway) {
      forall p | Reaches(c, p)
        ensures EndsAsPromised(c, p)
      {
        var points, moves :| IsRun(c, points, moves) && points[|moves|] == p;
        CheckoutEndsAsPromised(c, points, moves, |moves|);
      }
    } else {
      var p := BrokenPromise(c);
    }
  }
}
