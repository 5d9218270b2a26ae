/**
 Rows followed by the Turbo webhooks, and what each guarded write does to them
 (src/turbo/services/turbo-webhook.service.ts).

 An order is known by its unique `reference`, its delivery by the same key (one delivery
 per order), a course by its unique `reference`. "" stands for an absent string.
 */
module TurboRows {
  import opened Wrappers
  import opened Encaissement

  datatype OrderStatus = Pending | Cancelled | Accepted | InProgress | Ready | PickedUp | Collected | Completed

  datatype DeliveryStatut = Waiting | InRoute | Arrived | Delivered | Failed | Dropped

  datatype CourseStatut = PendingAssignment | Assigned | AtRestaurant | InDelivery | Finished | Aborted | Expired

  datatype PaymentStatus = Reverted | Success | Failure | AwaitingConfirmation

  datatype Order = Order(status: OrderStatus, paid: bool, amount: int, apiKey: string)

  datatype Delivery = Delivery(course: string, statut: DeliveryStatut, pin: string, attempts: nat)

  datatype Payment = Payment(order: string, line: Line, status: PaymentStatus)

  /** `departures` logs each call of the departure notifier, by order. */
  datatype Base = Base(
    orders: map<string, Order>,
    deliveries: map<string, Delivery>,
    courses: map<string, CourseStatut>,
    payments: seq<Payment>,
    departures: seq<string>
  )

  // ---- Ranks -------------------------------------------------------------------------

  /** -1 when the status is outside the normal course of a delivery. */
  function DeliveryRank(s: DeliveryStatut): int {
    match s
    case Waiting => 0
    case InRoute => 1
    case Arrived => 2
    case Delivered => 3
    case _ => -1
  }

  function CourseRank(s: CourseStatut): int {
    match s
    case PendingAssignment => 0
    case Assigned => 1
    case AtRestaurant => 2
    case InDelivery => 3
    case Finished => 4
    case _ => -1
  }

  /** A cancelled order has no rank. */
  function OrderRank(s: OrderStatus): int {
    match s
    case Pending => 0
    case Accepted => 1
    case InProgress => 2
    case Ready => 3
    case PickedUp => 4
    case Collected => 5
    case Completed => 6
    case Cancelled => -1
  }

  predicate TerminalDelivery(s: DeliveryStatut) {
    s.Delivered? || s.Failed? || s.Dropped?
  }

  predicate TerminalCourse(s: CourseStatut) {
    s.Finished? || s.Aborted? || s.Expired?
  }

  predicate TerminalOrder(s: OrderStatus) {
    s.Cancelled? || s.Completed?
  }

  // ---- Guarded moves of one status -----------------------------------------------------

  function CourseAfter(s: CourseStatut, next: CourseStatut): CourseStatut {
    if CourseRank(s) == -1 || CourseRank(next) == -1 || CourseRank(next) <= CourseRank(s) then s else next
  }

  function DeliveryAfter(s: DeliveryStatut, next: DeliveryStatut): DeliveryStatut {
    if DeliveryRank(next) == -1 then next
    else if 0 <= DeliveryRank(s) < DeliveryRank(next) then next
    else s
  }

  function OrderAfter(s: OrderStatus, next: OrderStatus): OrderStatus {
    if s == next || TerminalOrder(s) then s
    else if next != Cancelled && OrderRank(next) <= OrderRank(s) then s
    else next
  }

  // ---- Reads ---------------------------------------------------------------------------

  predicate HasOrder(b: Base, numero: string) {
    numero != "" && numero in b.orders
  }

  predicate HasDelivery(b: Base, numero: string) {
    HasOrder(b, numero) && numero in b.deliveries
  }

  /** The webhook names a course which is not the delivery's current one. */
  predicate Stale(b: Base, numero: string, courseNamed: string)
    requires HasDelivery(b, numero)
  {
    var current := b.deliveries[numero].course;
    courseNamed != "" && current != "" && current in b.courses && courseNamed != current
  }

  function ActiveDeliveries(deliveries: map<string, Delivery>, course: string): set<string> {
    set r | r in deliveries && deliveries[r].course == course && !TerminalDelivery(deliveries[r].statut)
  }

  predicate HasPending(payments: seq<Payment>, order: string) {
    exists p :: p in payments && p.order == order && p.status == AwaitingConfirmation
  }

  // ---- Writes ---------------------------------------------------------------------------

  function AdvanceCourse(b: Base, course: string, next: CourseStatut): Base {
    if course in b.courses
    then b.(courses := b.courses[course := CourseAfter(b.courses[course], next)])
    else b
  }

  /** One conditional `updateMany`; the departure notifier is called by the write that wins. */
  function AdvanceDelivery(b: Base, ref: string, next: DeliveryStatut): Base {
    if ref in b.deliveries && (DeliveryRank(next) == -1
        || 0 <= DeliveryRank(b.deliveries[ref].statut) < DeliveryRank(next))
    then b.(deliveries := b.deliveries[ref := b.deliveries[ref].(statut := next)],
            departures := if next == InRoute then b.departures + [ref] else b.departures)
    else b
  }

  function SetDelivery(b: Base, ref: string, statut: DeliveryStatut): Base {
    if ref in b.deliveries
    then b.(deliveries := b.deliveries[ref := b.deliveries[ref].(statut := statut)])
    else b
  }

  function CompleteIfDone(b: Base, course: string): Base {
    if ActiveDeliveries(b.deliveries, course) == {} then AdvanceCourse(b, course, Finished) else b
  }

  function CancelIfDone(b: Base, course: string): Base {
    if ActiveDeliveries(b.deliveries, course) == {} then ClaimAborted(b, course) else b
  }

  function ClaimAborted(b: Base, course: string): Base {
    if course in b.courses && !TerminalCourse(b.courses[course])
    then b.(courses := b.courses[course := Aborted])
    else b
  }

  function DropGroup(b: Base, course: string): Base {
    b.(deliveries := map r | r in b.deliveries ::
         if r in ActiveDeliveries(b.deliveries, course) then b.deliveries[r].(statut := Dropped) else b.deliveries[r])
  }

  function SyncStatus(b: Base, numero: string, next: OrderStatus): Base {
    if HasOrder(b, numero)
    then b.(orders := b.orders[numero := b.orders[numero].(status := OrderAfter(b.orders[numero].status, next))])
    else b
  }

  function PaymentRows(order: string, lines: seq<Line>): seq<Payment> {
    seq(|lines|, i requires 0 <= i < |lines| => Payment(order, lines[i], AwaitingConfirmation))
  }

  /** The partial unique index: one awaiting payment for an order and a source. */
  predicate Clashes(payments: seq<Payment>, order: string, lines: seq<Line>) {
    || (exists p, i | p in payments && 0 <= i < |lines| ::
          p.order == order && p.status == AwaitingConfirmation && p.line.means.source == lines[i].means.source)
    || (exists i, j | 0 <= i < j < |lines| :: lines[i].means.source == lines[j].means.source)
  }

  /** One transaction: all the rows, or none when the index refuses one of them. */
  function InsertPayments(b: Base, order: string, lines: seq<Line>): Base {
    if Clashes(b.payments, order, lines) then b
    else b.(payments := b.payments + PaymentRows(order, lines))
  }

  function Declare(b: Base, order: string, amount: int, d: Declaration): Base {
    if HasPending(b.payments, order) then b else InsertPayments(b, order, Normalised(d, amount))
  }

  // ---- Events and handlers ----------------------------------------------------------------

  datatype Event =
    | CourierAssigned(numero: string, course: string)
    | PickupStarted(numero: string, course: string)
    | TakenAway(numero: string, course: string)
    | InTransit(numero: string, course: string)
    | HandedOver(numero: string, course: string, declaration: Declaration)
    | CancelledByTurbo(numero: string, courseField: Option<string>, referenceField: string)
    | CodeEntered(numero: string, code: string, apiKey: string, declaration: Declaration)

  datatype Verdict =
    | MissingInput | UnknownDelivery | OrderCancelled | AlreadyConfirmed
    | WrongKey | Blocked | WrongCode(attempts: nat) | Confirmed

  const MAX_CODE_ATTEMPTS := 5

  /** What `validerCodeClient` answers. */
  function Validate(b: Base, numero: string, code: string, apiKey: string): (v: Verdict)
    ensures v != MissingInput && v != UnknownDelivery ==> HasDelivery(b, numero)
  {
    if numero == "" || code == "" then MissingInput
    else if !HasDelivery(b, numero) then UnknownDelivery
    else
      var order, delivery := b.orders[numero], b.deliveries[numero];
      if order.status == Cancelled then OrderCancelled
      else if order.status == Completed then AlreadyConfirmed
      else if apiKey == "" || order.apiKey != apiKey then WrongKey
      else if delivery.statut == Delivered then AlreadyConfirmed
      else if delivery.attempts >= MAX_CODE_ATTEMPTS then Blocked
      else if delivery.pin != code then WrongCode(delivery.attempts + 1)
      else Confirmed
  }

  predicate CarriesPayment(d: Declaration) {
    d.entries != [] || (d.code.Some? && d.code.value != "")
  }

  /** The order's half of `handleDelivered`. */
  function SettleOrder(b: Base, numero: string, d: Declaration): Base {
    if !HasOrder(b, numero) || TerminalOrder(b.orders[numero].status) then b
    else if b.orders[numero].paid then SyncStatus(b, numero, Completed)
    else SyncStatus(Declare(b, numero, b.orders[numero].amount, d), numero, Collected)
  }

  function ConfirmDelivery(b: Base, numero: string, d: Declaration): Base
    requires HasDelivery(b, numero)
  {
    var order, course := b.orders[numero], b.deliveries[numero].course;
    var b1 := SetDelivery(b, numero, Delivered);
    var b2 :=
      if order.paid then SyncStatus(b1, numero, Completed)
      else
        var declared := if CarriesPayment(d) then Declare(b1, numero, order.amount, d) else b1;
        SyncStatus(declared, numero, Collected);
    CompleteIfDone(b2, course)
  }

  function GroupNamed(e: Event): string
    requires e.CancelledByTurbo?
  {
    match e.courseField case Some(c) => c case None => e.referenceField
  }

  function CourseNamed(e: Event): string {
    match e
    case CancelledByTurbo(_, field, _) => (match field case Some(c) => c case None => "")
    case CodeEntered(_, _, _, _) => ""
    case _ => e.course
  }

  /** What one handler, run on its own, does to the base. */
  function Handle(b: Base, e: Event): Base {
    var known := HasDelivery(b, e.numero);
    if known && Stale(b, e.numero, CourseNamed(e)) then b
    else
      var course := if known then b.deliveries[e.numero].course else "";
      match e
      case CourierAssigned(_, _) =>
        if known then AdvanceCourse(b, course, Assigned) else b
      case PickupStarted(_, _) =>
        if known then AdvanceCourse(b, course, AtRestaurant) else b
      case TakenAway(numero, _) =>
        var b1 := if known then AdvanceDelivery(AdvanceCourse(b, course, InDelivery), numero, InRoute) else b;
        SyncStatus(b1, numero, PickedUp)
      case InTransit(numero, _) =>
        var b1 := if known then AdvanceDelivery(AdvanceCourse(b, course, InDelivery), numero, InRoute) else b;
        SyncStatus(b1, numero, PickedUp)
      case HandedOver(numero, _, d) =>
        var b1 := if known then CompleteIfDone(AdvanceDelivery(b, numero, Delivered), course) else b;
        SettleOrder(b1, numero, d)
      case CancelledByTurbo(numero, _, _) =>
        if known then
          if TerminalDelivery(b.deliveries[numero].statut) then b
          else CancelIfDone(SetDelivery(b, numero, Dropped), course)
        else
          var group := GroupNamed(e);
          if group != "" && group in b.courses then CancelIfDone(DropGroup(b, group), group) else b
      case CodeEntered(numero, code, key, d) =>
        match Validate(b, numero, code, key)
        case WrongCode(n) => b.(deliveries := b.deliveries[numero := b.deliveries[numero].(attempts := n)])
        case Confirmed => ConfirmDelivery(b, numero, d)
        case _ => b
  }

  /** Whether the acknowledgement says the event was processed. */
  predicate Processed(b: Base, e: Event)
    requires !e.CodeEntered?
  {
    match e
    case CourierAssigned(numero, _) => HasDelivery(b, numero)
    case PickupStarted(_, _) => true
    case CancelledByTurbo(numero, _, _) =>
      HasOrder(b, numero) || (GroupNamed(e) != "" && GroupNamed(e) in b.courses)
    case _ => HasOrder(b, e.numero)
  }

  /** Handlers run one at a time, in the order of `es`. */
  function Run(b: Base, es: seq<Event>): Base {
    if es == [] then b else Handle(Run(b, es[..|es| - 1]), es[|es| - 1])
  }
}
