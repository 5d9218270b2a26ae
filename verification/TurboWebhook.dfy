/** The Turbo webhook service, handler by handler, as it updates the rows. */
module TurboWebhook {
  import opened Wrappers
  import opened Encaissement
  import opened TurboRows

  class TurboWebhookService {
    var orders: map<string, Order>
    var deliveries: map<string, Delivery>
    var courses: map<string, CourseStatut>
    var payments: seq<Payment>
    var departures: seq<string>

    ghost function State(): Base
      reads this
    {
      Base(orders, deliveries, courses, payments, departures)
    }

    constructor (b: Base)
      ensures State() == b
    {
      orders, deliveries, courses := b.orders, b.deliveries, b.courses;
      payments, departures := b.payments, b.departures;
    }

    method AdvanceCourseTo(course: string, next: CourseStatut)
      modifies this`courses
      ensures State() == AdvanceCourse(old(State()), course, next)
    {
      if course !in courses { return; }
      var from, to := CourseRank(courses[course]), CourseRank(next);
      if from == -1 || to == -1 || to <= from {
        assert courses == courses[course := courses[course]];
        return;
      }
      courses := courses[course := next];
    }

    method AdvanceDeliveryTo(ref: string, next: DeliveryStatut)
      modifies this`deliveries, this`departures
      ensures State() == AdvanceDelivery(old(State()), ref, next)
    {
      var target := DeliveryRank(next);
      var count := 0;
      if ref in deliveries && (target == -1 || 0 <= DeliveryRank(deliveries[ref].statut) < target) {
        deliveries := deliveries[ref := deliveries[ref].(statut := next)];
        count := 1;
      }
      if count == 0 { return; }
      if next == InRoute {
        departures := departures + [ref];
      }
    }

    method SyncOrderStatus(numero: string, next: OrderStatus) returns (processed: bool)
      modifies this`orders
      ensures State() == SyncStatus(old(State()), numero, next)
      ensures processed == HasOrder(old(State()), numero)
    {
      if numero == "" || numero !in orders { return false; }
      var order := orders[numero];
      assert orders == orders[numero := order];
      if order.status == next { return true; }
      if order.status == Cancelled || order.status == Completed { return true; }
      if next != Cancelled && OrderRank(next) <= OrderRank(order.status) { return true; }
      orders := orders[numero := order.(status := next)];
      return true;
    }

    method RecordPayment(order: string, amount: int, d: Declaration)
      modifies this`payments
      ensures State() == Declare(old(State()), order, amount, d)
    {
      if HasPending(payments, order) { return; }
      var lines := Normalise(d, amount);
      if Clashes(payments, order, lines) { return; }
      payments := payments + PaymentRows(order, lines);
    }

    method HandleCourierAssigned(numero: string, course: string) returns (processed: bool)
      modifies this
      ensures State() == Handle(old(State()), CourierAssigned(numero, course))
      ensures processed == Processed(old(State()), CourierAssigned(numero, course))
    {
      if !(numero != "" && numero in orders && numero in deliveries) { return false; }
      if Stale(Snapshot(), numero, course) { return true; }
      AdvanceCourseTo(deliveries[numero].course, Assigned);
      return true;
    }

    function Snapshot(): (b: Base)
      reads this
      ensures b == State()
    {
      Base(orders, deliveries, courses, payments, departures)
    }

    method HandlePickupStarted(numero: string, course: string) returns (processed: bool)
      modifies this
      ensures State() == Handle(old(State()), PickupStarted(numero, course))
      ensures processed == Processed(old(State()), PickupStarted(numero, course))
    {
      var known := HasDelivery(Snapshot(), numero);
      if known && Stale(Snapshot(), numero, course) { return true; }
      if known {
        AdvanceCourseTo(deliveries[numero].course, AtRestaurant);
      }
      return true;
    }

    method HandlePickedUp(numero: string, course: string) returns (processed: bool)
      modifies this
      ensures State() == Handle(old(State()), TakenAway(numero, course))
      ensures processed == Processed(old(State()), TakenAway(numero, course))
    {
      var known := HasDelivery(Snapshot(), numero);
      if known && Stale(Snapshot(), numero, course) { return true; }
      if known {
        AdvanceCourseTo(deliveries[numero].course, InDelivery);
        AdvanceDeliveryTo(numero, InRoute);
      }
      processed := SyncOrderStatus(numero, PickedUp);
    }

    method HandleInTransit(numero: string, course: string) returns (processed: bool)
      modifies this
      ensures State() == Handle(old(State()), InTransit(numero, course))
      ensures processed == Processed(old(State()), InTransit(numero, course))
    {
      var known := HasDelivery(Snapshot(), numero);
      if known && Stale(Snapshot(), numero, course) { return true; }
      if known {
        AdvanceCourseTo(deliveries[numero].course, InDelivery);
        AdvanceDeliveryTo(numero, InRoute);
      }
      processed := SyncOrderStatus(numero, PickedUp);
    }

    method HandleDelivered(numero: string, course: string, d: Declaration) returns (processed: bool)
      modifies this
      ensures State() == Handle(old(State()), HandedOver(numero, course, d))
      ensures processed == Processed(old(State()), HandedOver(numero, course, d))
    {
      var known := HasDelivery(Snapshot(), numero);
      if known && Stale(Snapshot(), numero, course) { return true; }
      if known {
        var group := deliveries[numero].course;
        AdvanceDeliveryTo(numero, Delivered);
        var remaining := |ActiveDeliveries(deliveries, group)|;
        if remaining == 0 {
          AdvanceCourseTo(group, Finished);
        }
      }
      if numero == "" || numero !in orders { return false; }
      var order := orders[numero];
      if order.status == Cancelled || order.status == Completed { return true; }
      if order.paid {
        processed := SyncOrderStatus(numero, Completed);
        return;
      }
      RecordPayment(numero, order.amount, d);
      processed := SyncOrderStatus(numero, Collected);
    }

    method CancelCourseIfNoDeliveryLeft(course: string)
      modifies this`courses
      ensures State() == CancelIfDone(old(State()), course)
    {
      var actives := |ActiveDeliveries(deliveries, course)|;
      if actives > 0 { return; }
      if course in courses && !TerminalCourse(courses[course]) {
        courses := courses[course := Aborted];
      }
    }

    method HandleCancelled(
      numero: string, courseField: Option<string>, referenceField: string) returns (processed: bool)
      modifies this
      ensures State() == Handle(old(State()), CancelledByTurbo(numero, courseField, referenceField))
      ensures processed == Processed(old(State()), CancelledByTurbo(numero, courseField, referenceField))
    {
      var e := CancelledByTurbo(numero, courseField, referenceField);
      var known := HasDelivery(Snapshot(), numero);
      if known && Stale(Snapshot(), numero, CourseNamed(e)) { return true; }
      if known {
        var delivery := deliveries[numero];
        if !TerminalDelivery(delivery.statut) {
          deliveries := deliveries[numero := delivery.(statut := Dropped)];
          CancelCourseIfNoDeliveryLeft(delivery.course);
        }
        return true;
      }
      var group := GroupNamed(e);
      if group != "" && group in courses {
        deliveries := map r | r in deliveries ::
          if r in ActiveDeliveries(deliveries, group) then deliveries[r].(statut := Dropped) else deliveries[r];
        CancelCourseIfNoDeliveryLeft(group);
        return true;
      }
      return numero != "" && numero in orders;
    }

    method ValidateCustomerCode(numero: string, code: string, apiKey: string, d: Declaration) returns (v: Verdict)
      modifies this
      ensures State() == Handle(old(State()), CodeEntered(numero, code, apiKey, d))
      ensures v == Validate(old(State()), numero, code, apiKey)
    {
      if numero == "" || code == "" { return MissingInput; }
      if numero !in orders || numero !in deliveries { return UnknownDelivery; }
      var order, delivery := orders[numero], deliveries[numero];
      if order.status == Cancelled { return OrderCancelled; }
      if order.status == Completed { return AlreadyConfirmed; }
      if apiKey == "" || order.apiKey != apiKey { return WrongKey; }
      if delivery.statut == Delivered { return AlreadyConfirmed; }
      if delivery.attempts >= MAX_CODE_ATTEMPTS { return Blocked; }
      if delivery.pin != code {
        var attempts := delivery.attempts + 1;
        deliveries := deliveries[numero := delivery.(attempts := attempts)];
        return WrongCode(attempts);
      }
      deliveries := deliveries[numero := delivery.(statut := Delivered)];
      if order.paid {
        var _ := SyncOrderStatus(numero, Completed);
      } else {
        if CarriesPayment(d) {
          RecordPayment(numero, order.amount, d);
        }
        var _ := SyncOrderStatus(numero, Collected);
      }
      var remaining := |ActiveDeliveries(deliveries, delivery.course)|;
      if remaining == 0 {
        AdvanceCourseTo(delivery.course, Finished);
      }
      return Confirmed;
    }
  }
}
