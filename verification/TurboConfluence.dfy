/**
 Serial webhooks: whatever the order and the repetitions in which they arrive, tracking ends
 in the state `Outcome` reads off the mere set of events. Also: nothing moves backwards.
 */
module TurboConfluence {
  import opened Encaissement
  import opened TurboRows

  predicate IsTracking(e: Event) {
    !e.CancelledByTurbo? && !e.CodeEntered?
  }

  /** The statuses, without attempts, payments and messages. */
  datatype Tracking = Tracking(
    orders: map<string, OrderStatus>, deliveries: map<string, DeliveryStatut>, courses: map<string, CourseStatut>)

  ghost function StatusesOf(b: Base): Tracking {
    Tracking(map r | r in b.orders :: b.orders[r].status,
             map r | r in b.deliveries :: b.deliveries[r].statut,
             b.courses)
  }

  // ---- The reference: statuses computed from the set of events ---------------------------

  /** The event is not about a former course of the delivery: it names the current one, or none. */
  predicate Live(b: Base, e: Event) {
    var n, named := e.numero, CourseNamed(e);
    n != "" && n in b.orders && n in b.deliveries && named != "" && b.deliveries[n].course in b.courses ==>
      named == b.deliveries[n].course || b.deliveries[n].course == ""
  }

  lemma LiveIff(b: Base, e: Event)
    ensures Live(b, e) <==> !(HasDelivery(b, e.numero) && Stale(b, e.numero, CourseNamed(e)))
  {
    hide CourseNamed;
  }

  predicate SaysDelivered(b: Base, e: Event) { e.HandedOver? && Live(b, e) }

  predicate SaysDeparted(b: Base, e: Event) { (e.TakenAway? || e.InTransit?) && Live(b, e) }

  predicate SaysPickup(b: Base, e: Event) { e.PickupStarted? && Live(b, e) }

  predicate SaysAssigned(b: Base, e: Event) { e.CourierAssigned? && Live(b, e) }

  predicate OnCourse(b: Base, e: Event, course: string) {
    HasDelivery(b, e.numero) && b.deliveries[e.numero].course == course
  }

  ghost predicate DeliveredFor(b: Base, es: set<Event>, ref: string) {
    exists e :: e in es && e.numero == ref && SaysDelivered(b, e)
  }

  ghost predicate DepartedFor(b: Base, es: set<Event>, ref: string) {
    exists e :: e in es && e.numero == ref && SaysDeparted(b, e)
  }

  ghost predicate DeliveredOn(b: Base, es: set<Event>, course: string) {
    exists e :: e in es && OnCourse(b, e, course) && SaysDelivered(b, e)
  }

  ghost predicate DepartedOn(b: Base, es: set<Event>, course: string) {
    exists e :: e in es && OnCourse(b, e, course) && SaysDeparted(b, e)
  }

  ghost predicate PickupOn(b: Base, es: set<Event>, course: string) {
    exists e :: e in es && OnCourse(b, e, course) && SaysPickup(b, e)
  }

  ghost predicate AssignedOn(b: Base, es: set<Event>, course: string) {
    exists e :: e in es && OnCourse(b, e, course) && SaysAssigned(b, e)
  }

  ghost function DeliveryOutcome(b: Base, es: set<Event>, ref: string): DeliveryStatut
    requires ref in b.deliveries
  {
    var s := b.deliveries[ref].statut;
    if !HasDelivery(b, ref) then s
    else if DeliveredFor(b, es, ref) then DeliveryAfter(s, Delivered)
    else if DepartedFor(b, es, ref) then DeliveryAfter(s, InRoute)
    else s
  }

  ghost function OrderOutcome(b: Base, es: set<Event>, ref: string): OrderStatus
    requires ref in b.orders
  {
    var order := b.orders[ref];
    if ref == "" then order.status
    else if DeliveredFor(b, es, ref) then
      OrderAfter(order.status, if order.paid then Completed else Collected)
    else if DepartedFor(b, es, ref) then OrderAfter(order.status, PickedUp)
    else order.status
  }

  ghost predicate AllDone(b: Base, es: set<Event>, course: string) {
    forall r | r in b.deliveries && b.deliveries[r].course == course :: TerminalDelivery(DeliveryOutcome(b, es, r))
  }

  /** A course completes exactly when one of its deliveries is reported delivered and none stays active. */
  ghost function CourseOutcome(b: Base, es: set<Event>, course: string): CourseStatut
    requires course in b.courses
  {
    Furthest(b.courses[course], DeliveredOn(b, es, course) && AllDone(b, es, course),
             DepartedOn(b, es, course), PickupOn(b, es, course), AssignedOn(b, es, course))
  }

  /** The furthest stage reported. */
  function Furthest(s: CourseStatut, finished: bool, departed: bool, pickup: bool, accepted: bool): CourseStatut {
    if finished then CourseAfter(s, Finished)
    else if departed then CourseAfter(s, InDelivery)
    else if pickup then CourseAfter(s, AtRestaurant)
    else if accepted then CourseAfter(s, Assigned)
    else s
  }

  ghost function Outcome(b: Base, es: set<Event>): Tracking {
    Tracking(map r | r in b.orders :: OrderOutcome(b, es, r),
             map r | r in b.deliveries :: DeliveryOutcome(b, es, r),
             map c | c in b.courses :: CourseOutcome(b, es, c))
  }

  // ---- Each write moves ahead, so each handler does ------------------------------------------

  ghost predicate CourseMayBecome(s: CourseStatut, s': CourseStatut) {
    s' == s || (!TerminalCourse(s) && (s'.Aborted? || CourseRank(s) < CourseRank(s')))
  }

  ghost predicate OrderMayBecome(s: OrderStatus, s': OrderStatus) {
    s' == s || (!TerminalOrder(s) && OrderRank(s) < OrderRank(s'))
  }

  ghost predicate DeliveryMayBecome(s: DeliveryStatut, s': DeliveryStatut) {
    if TerminalDelivery(s) then s' == s || s'.Delivered?
    else TerminalDelivery(s') || DeliveryRank(s) <= DeliveryRank(s')
  }

  ghost predicate OrdersAhead(m: map<string, Order>, m': map<string, Order>) {
    && m'.Keys == m.Keys
    && forall r | r in m ::
         && m'[r] == m[r].(status := m'[r].status)
         && OrderMayBecome(m[r].status, m'[r].status)
         && (m'[r].status.Completed? ==> m[r].status.Completed? || m[r].paid)
  }

  ghost predicate DeliveriesAhead(m: map<string, Delivery>, m': map<string, Delivery>) {
    && m'.Keys == m.Keys
    && forall r | r in m ::
         && m'[r].course == m[r].course && m'[r].pin == m[r].pin
         && DeliveryMayBecome(m[r].statut, m'[r].statut)
         && m[r].attempts <= m'[r].attempts
         && (m[r].attempts <= MAX_CODE_ATTEMPTS ==> m'[r].attempts <= MAX_CODE_ATTEMPTS)
  }

  ghost predicate CoursesAhead(m: map<string, CourseStatut>, m': map<string, CourseStatut>) {
    && m'.Keys == m.Keys
    && forall c | c in m :: CourseMayBecome(m[c], m'[c])
  }

  /** `b'` is at or ahead of `b` everywhere, with the same rows, references and payment flags. */
  ghost predicate Ahead(b: Base, b': Base) {
    && OrdersAhead(b.orders, b'.orders)
    && DeliveriesAhead(b.deliveries, b'.deliveries)
    && CoursesAhead(b.courses, b'.courses)
  }

  lemma AheadIsTransitive(a: Base, b: Base, c: Base)
    requires Ahead(a, b) && Ahead(b, c)
    ensures Ahead(a, c)
  {
  }

  lemma AdvanceCourseAhead(b: Base, course: string, next: CourseStatut)
    ensures Ahead(b, AdvanceCourse(b, course, next))
  {
    StandsStill(b);
    hide OrdersAhead, DeliveriesAhead;
  }

  lemma CancelCourseAhead(b: Base, course: string)
    ensures Ahead(b, CancelIfDone(b, course))
  {
    StandsStill(b);
    hide OrdersAhead, DeliveriesAhead, ActiveDeliveries;
  }

  lemma CourseWritesAhead(b: Base, course: string, next: CourseStatut)
    ensures Ahead(b, AdvanceCourse(b, course, next))
    ensures Ahead(b, CompleteIfDone(b, course))
    ensures Ahead(b, CancelIfDone(b, course))
  {
    hide Ahead, AdvanceCourse, CancelIfDone, ActiveDeliveries;
    StandsStill(b);
    AdvanceCourseAhead(b, course, next);
    AdvanceCourseAhead(b, course, Finished);
    CancelCourseAhead(b, course);
  }

  lemma AdvanceDeliveryAhead(b: Base, ref: string, next: DeliveryStatut)
    requires next.InRoute? || next.Delivered?
    ensures Ahead(b, AdvanceDelivery(b, ref, next))
  {
    StandsStill(b);
    hide OrdersAhead, CoursesAhead;
  }

  lemma SetDeliveryAhead(b: Base, ref: string, next: DeliveryStatut)
    requires ref in b.deliveries
    requires next.Delivered? || (next.Dropped? && !TerminalDelivery(b.deliveries[ref].statut))
    ensures Ahead(b, SetDelivery(b, ref, next))
  {
    StandsStill(b);
    hide OrdersAhead, CoursesAhead;
  }

  lemma DropGroupAhead(b: Base, group: string)
    ensures Ahead(b, DropGroup(b, group))
  {
    StandsStill(b);
    hide OrdersAhead, CoursesAhead;
  }

  /** An order is only completed when it is paid. */
  lemma SyncStatusAhead(b: Base, ref: string, next: OrderStatus)
    requires !next.Cancelled? && (next.Completed? && ref in b.orders ==> b.orders[ref].paid)
    ensures Ahead(b, SyncStatus(b, ref, next))
  {
    StandsStill(b);
    hide DeliveriesAhead, CoursesAhead;
  }

  lemma DeclareAhead(b: Base, ref: string, amount: int, d: Declaration)
    ensures Ahead(b, Declare(b, ref, amount, d)) && Declare(b, ref, amount, d).orders == b.orders
  {
    hide Normalised, Clashes, HasPending;
    StandsStill(b);
    hide OrdersAhead, DeliveriesAhead, CoursesAhead;
  }

  lemma SettleOrderAhead(b: Base, numero: string, d: Declaration)
    ensures Ahead(b, SettleOrder(b, numero, d))
  {
    hide Ahead, SyncStatus, Declare;
    StandsStill(b);
    if HasOrder(b, numero) {
      var amount := b.orders[numero].amount;
      var b1 := Declare(b, numero, amount, d);
      if b.orders[numero].paid {
        SyncStatusAhead(b, numero, Completed);
      }
      DeclareAhead(b, numero, amount, d);
      SyncStatusAhead(b1, numero, Collected);
      AheadIsTransitive(b, b1, SyncStatus(b1, numero, Collected));
    }
  }

  lemma StandsStill(b: Base)
    ensures Ahead(b, b)
  {
  }

  lemma SettingKeepsOrders(b: Base, ref: string, next: DeliveryStatut)
    ensures SetDelivery(b, ref, next).orders == b.orders
  {
  }

  lemma ConfirmDeliveryAhead(b: Base, numero: string, d: Declaration)
    requires HasDelivery(b, numero)
    ensures Ahead(b, ConfirmDelivery(b, numero, d))
  {
    hide Ahead, SyncStatus, Declare, SetDelivery, CompleteIfDone;
    var order, course := b.orders[numero], b.deliveries[numero].course;
    var b1 := SetDelivery(b, numero, Delivered);
    SetDeliveryAhead(b, numero, Delivered);
    var declared := if !order.paid && CarriesPayment(d) then Declare(b1, numero, order.amount, d) else b1;
    StandsStill(b1);
    DeclareAhead(b1, numero, order.amount, d);
    AheadIsTransitive(b, b1, declared);
    assert declared.orders == b.orders by { SettingKeepsOrders(b, numero, Delivered); }
    var b2 := SyncStatus(declared, numero, if order.paid then Completed else Collected);
    SyncStatusAhead(declared, numero, if order.paid then Completed else Collected);
    AheadIsTransitive(b, declared, b2);
    CourseWritesAhead(b2, course, Finished);
    AheadIsTransitive(b, b2, CompleteIfDone(b2, course));
  }

  lemma HandedOverAhead(b: Base, numero: string, course: string, d: Declaration)
    ensures Ahead(b, SettleOrder(b, numero, d))
    ensures Ahead(b, SettleOrder(CompleteIfDone(AdvanceDelivery(b, numero, Delivered), course), numero, d))
  {
    hide *;
    var b1 := AdvanceDelivery(b, numero, Delivered);
    var b2 := CompleteIfDone(b1, course);
    AdvanceDeliveryAhead(b, numero, Delivered);
    CourseWritesAhead(b1, course, Finished);
    AheadIsTransitive(b, b1, b2);
    SettleOrderAhead(b2, numero, d);
    AheadIsTransitive(b, b2, SettleOrder(b2, numero, d));
    SettleOrderAhead(b, numero, d);
  }

  lemma CancellationAhead(b: Base, numero: string, course: string, group: string)
    ensures Ahead(b, CancelIfDone(DropGroup(b, group), group))
    ensures numero in b.deliveries && !TerminalDelivery(b.deliveries[numero].statut)
            ==> Ahead(b, CancelIfDone(SetDelivery(b, numero, Dropped), course))
  {
    hide *;
    var b1 := SetDelivery(b, numero, Dropped);
    var b2 := DropGroup(b, group);
    DropGroupAhead(b, group);
    CourseWritesAhead(b1, course, Finished);
    CourseWritesAhead(b2, group, Finished);
    AheadIsTransitive(b, b2, CancelIfDone(b2, group));
    if numero in b.deliveries && !TerminalDelivery(b.deliveries[numero].statut) {
      SetDeliveryAhead(b, numero, Dropped);
      AheadIsTransitive(b, b1, CancelIfDone(b1, course));
    }
  }

  lemma AttemptAhead(b: Base, numero: string, attempts: nat)
    requires numero in b.deliveries && b.deliveries[numero].attempts < MAX_CODE_ATTEMPTS
    requires attempts == b.deliveries[numero].attempts + 1
    ensures Ahead(b, b.(deliveries := b.deliveries[numero := b.deliveries[numero].(attempts := attempts)]))
  {
  }

  lemma AttemptsUnderTheCeiling(b: Base, numero: string, code: string, apiKey: string)
    ensures var v := Validate(b, numero, code, apiKey);
            v.WrongCode? ==>
              numero in b.deliveries && v.attempts == b.deliveries[numero].attempts + 1 <= MAX_CODE_ATTEMPTS
  {
  }

  /** Any of the seven events, handled on its own, only moves statuses ahead. */
  lemma HandleMovesAhead(b: Base, e: Event)
    ensures Ahead(b, Handle(b, e))
  {
    hide Ahead, Stale, Validate, AdvanceCourse, AdvanceDelivery, SyncStatus, CompleteIfDone, SettleOrder,
      ConfirmDelivery,
      SetDelivery, DropGroup, CancelIfDone, GroupNamed, CourseNamed;
    var known := HasDelivery(b, e.numero);
    var course := if known then b.deliveries[e.numero].course else "";
    StandsStill(b);
    match e {
      case CourierAssigned(_, _) => CourseWritesAhead(b, course, Assigned);
      case PickupStarted(_, _) => CourseWritesAhead(b, course, AtRestaurant);
      case TakenAway(numero, _) => DepartureAhead(b, numero, course);
      case InTransit(numero, _) => DepartureAhead(b, numero, course);
      case HandedOver(numero, _, d) => HandedOverAhead(b, numero, course, d);
      case CancelledByTurbo(numero, _, _) => CancellationAhead(b, numero, course, GroupNamed(e));
      case CodeEntered(numero, code, key, d) =>
        AttemptsUnderTheCeiling(b, numero, code, key);
        match Validate(b, numero, code, key) {
          case WrongCode(n) => AttemptAhead(b, numero, n);
          case Confirmed => ConfirmDeliveryAhead(b, numero, d);
          case _ =>
        }
    }
  }

  lemma DepartureAhead(b: Base, numero: string, course: string)
    ensures Ahead(b, SyncStatus(b, numero, PickedUp))
    ensures Ahead(b, SyncStatus(AdvanceDelivery(AdvanceCourse(b, course, InDelivery), numero, InRoute), numero,
             PickedUp))
  {
    hide *;
    SyncStatusAhead(b, numero, PickedUp);
    var b1 := AdvanceCourse(b, course, InDelivery);
    var b2 := AdvanceDelivery(b1, numero, InRoute);
    CourseWritesAhead(b, course, InDelivery);
    AdvanceDeliveryAhead(b1, numero, InRoute);
    SyncStatusAhead(b2, numero, PickedUp);
    AheadIsTransitive(b, b1, b2);
    AheadIsTransitive(b, b2, SyncStatus(b2, numero, PickedUp));
  }

  /** Over any serial run of all seven events, statuses only move ahead: terminal orders and courses stay. */
  lemma {:induction false} RunMovesAhead(b: Base, es: seq<Event>, i: nat)
    requires i <= |es|
    ensures Ahead(Run(b, es[..i]), Run(b, es))
    decreases |es|
  {
    hide Handle;
    if i == |es| {
      assert es[..i] == es;
      StandsStill(Run(b, es));
    } else {
      var init := es[..|es| - 1];
      RunMovesAhead(b, init, i);
      assert init[..i] == es[..i];
      HandleMovesAhead(Run(b, init), es[|es| - 1]);
      AheadIsTransitive(Run(b, es[..i]), Run(b, init), Run(b, es));
    }
  }

  // ---- One more event -----------------------------------------------------------------------

  lemma LiveIsFixed(b: Base, b': Base, e: Event)
    requires Ahead(b, b')
    ensures HasDelivery(b, e.numero) == HasDelivery(b', e.numero)
    ensures Live(b, e) == Live(b', e)
  {
  }

  ghost function DeliveryMoved(b: Base, e: Event, ref: string): DeliveryStatut
    requires ref in b.deliveries
  {
    var s := b.deliveries[ref].statut;
    if !HasDelivery(b, ref) || e.numero != ref then s
    else if SaysDelivered(b, e) then DeliveryAfter(s, Delivered)
    else if SaysDeparted(b, e) then DeliveryAfter(s, InRoute)
    else s
  }

  ghost function OrderMoved(b: Base, e: Event, ref: string): OrderStatus
    requires ref in b.orders
  {
    var order := b.orders[ref];
    if ref == "" || e.numero != ref then order.status
    else if SaysDelivered(b, e) then OrderAfter(order.status, if order.paid then Completed else Collected)
    else if SaysDeparted(b, e) then OrderAfter(order.status, PickedUp)
    else order.status
  }

  ghost predicate DoneAfter(b: Base, e: Event, course: string) {
    forall r | r in b.deliveries && b.deliveries[r].course == course :: TerminalDelivery(DeliveryMoved(b, e, r))
  }

  ghost function CourseMoved(b: Base, e: Event, course: string): CourseStatut
    requires course in b.courses
  {
    var on := OnCourse(b, e, course);
    StageAfter(b.courses[course], on && SaysDelivered(b, e), DoneAfter(b, e, course),
               on && SaysDeparted(b, e), on && SaysPickup(b, e), on && SaysAssigned(b, e))
  }

  /** The stage reached by a course when one event is reported on it. */
  function StageAfter(
    s: CourseStatut, delivered: bool, done: bool, departed: bool, pickup: bool, accepted: bool): CourseStatut {
    if delivered then if done then CourseAfter(s, Finished) else s
    else if departed then CourseAfter(s, InDelivery)
    else if pickup then CourseAfter(s, AtRestaurant)
    else if accepted then CourseAfter(s, Assigned)
    else s
  }

  lemma SettlingMovesOneOrder(b: Base, numero: string, d: Declaration)
    ensures var after := SettleOrder(b, numero, d);
            && after.deliveries == b.deliveries && after.courses == b.courses && after.orders.Keys == b.orders.Keys
            && forall r | r in b.orders ::
                 after.orders[r].status ==
                   if r == numero && r != ""
                   then OrderAfter(b.orders[r].status, if b.orders[r].paid then Completed else Collected)
                   else b.orders[r].status
  {
    hide Normalised, Clashes, HasPending, OrderRank;
  }

  lemma DeliveriesMove(b: Base, e: Event, ref: string)
    requires IsTracking(e) && ref in b.deliveries && ref in Handle(b, e).deliveries
    ensures Handle(b, e).deliveries[ref].statut == DeliveryMoved(b, e, ref)
  {
    LiveIff(b, e);
    hide Live, SettleOrder, ActiveDeliveries, OrderAfter, CourseAfter, Stale;
    if e.HandedOver? {
      SettlingMovesOneOrder(b, e.numero, e.declaration);
      if HasDelivery(b, e.numero) {
        SettlingMovesOneOrder(CompleteIfDone(AdvanceDelivery(b, e.numero, Delivered), b.deliveries[e.numero].course),
            e.numero, e.declaration);
      }
    }
  }

  lemma OrdersMove(b: Base, e: Event, ref: string)
    requires IsTracking(e) && ref in b.orders && ref in Handle(b, e).orders
    ensures Handle(b, e).orders[ref].status == OrderMoved(b, e, ref)
  {
    LiveIff(b, e);
    hide Live, SettleOrder, ActiveDeliveries, CourseAfter, OrderAfter, Stale;
    if e.HandedOver? {
      SettlingMovesOneOrder(b, e.numero, e.declaration);
      if HasDelivery(b, e.numero) {
        SettlingMovesOneOrder(CompleteIfDone(AdvanceDelivery(b, e.numero, Delivered), b.deliveries[e.numero].course),
            e.numero, e.declaration);
      }
    }
  }

  lemma CoursesMove(b: Base, e: Event, course: string)
    requires IsTracking(e) && course in b.courses && course in Handle(b, e).courses
    ensures Handle(b, e).courses[course] == CourseMoved(b, e, course)
  {
    LiveIff(b, e);
    hide Live, SettleOrder, OrderAfter, CourseRank, Stale, ActiveDeliveries, DoneAfter;
    if e.HandedOver? {
      SettlingMovesOneOrder(b, e.numero, e.declaration);
      if HasDelivery(b, e.numero) {
        SettlingMovesOneOrder(CompleteIfDone(AdvanceDelivery(b, e.numero, Delivered), b.deliveries[e.numero].course),
            e.numero, e.declaration);
      }
      if SaysDelivered(b, e) && OnCourse(b, e, course) {
        DoneMeansNoneActive(b, e, course);
      }
    }
  }

  lemma DoneMeansNoneActive(b: Base, e: Event, course: string)
    requires SaysDelivered(b, e) && OnCourse(b, e, course)
    ensures ActiveDeliveries(AdvanceDelivery(b, e.numero, Delivered).deliveries, course) == {} <==>
             DoneAfter(b, e, course)
  {
    var after := AdvanceDelivery(b, e.numero, Delivered).deliveries;
    forall r | r in b.deliveries
      ensures r in after && after[r].course == b.deliveries[r].course && after[r].statut == DeliveryMoved(b, e, r)
    {
    }
    assert forall r :: r in ActiveDeliveries(after, course) <==>
                       r in b.deliveries && b.deliveries[r].course == course
                           && !TerminalDelivery(DeliveryMoved(b, e, r));
  }

  lemma DeliveryStep(b: Base, s: Base, es: set<Event>, e: Event, ref: string)
    requires IsTracking(e) && Ahead(b, s) && ref in b.deliveries
    requires s.deliveries[ref].statut == DeliveryOutcome(b, es, ref)
    ensures DeliveryMoved(s, e, ref) == DeliveryOutcome(b, es + {e}, ref)
  {
    SaysTheSame(b, s, e, "");
    assert HasDelivery(s, ref) == HasDelivery(b, ref);
    NewsGrow(b, es, e, ref);
    hide Ahead, IsTracking, HasDelivery, DeliveredFor, DepartedFor, SaysDelivered, SaysDeparted;
  }

  lemma OrderStep(b: Base, s: Base, es: set<Event>, e: Event, ref: string)
    requires IsTracking(e) && Ahead(b, s) && ref in b.orders
    requires s.orders[ref].status == OrderOutcome(b, es, ref)
    ensures OrderMoved(s, e, ref) == OrderOutcome(b, es + {e}, ref)
  {
    SaysTheSame(b, s, e, "");
    assert s.orders[ref].paid == b.orders[ref].paid;
    NewsGrow(b, es, e, ref);
    hide Ahead, IsTracking, DeliveredFor, DepartedFor, SaysDelivered, SaysDeparted;
  }

  lemma CourseStep(b: Base, s: Base, es: set<Event>, e: Event, course: string)
    requires IsTracking(e) && Ahead(b, s) && course in b.courses
    requires forall r | r in b.deliveries :: s.deliveries[r].statut == DeliveryOutcome(b, es, r)
    requires s.courses[course] == CourseOutcome(b, es, course)
    ensures course in s.courses && CourseMoved(s, e, course) == CourseOutcome(b, es + {e}, course)
  {
    SaysTheSame(b, s, e, course);
    DoneGrows(b, s, es, e, course);
    ReportsGrow(b, es, e, course);
    FurthestStep(b.courses[course], AllDone(b, es, course),
      DeliveredOn(b, es, course), DepartedOn(b, es, course), PickupOn(b, es, course), AssignedOn(b, es, course),
      OnCourse(b, e, course) && SaysDelivered(b, e), DoneAfter(s, e, course),
      OnCourse(b, e, course) && SaysDeparted(b, e), OnCourse(b, e, course) && SaysPickup(b, e),
      OnCourse(b, e, course) && SaysAssigned(b, e));
    hide Furthest, StageAfter;
  }

  lemma FurthestStep(s: CourseStatut, done: bool, delivered: bool, departed: bool, pickup: bool, accepted: bool,
    delivered': bool, done': bool, departed': bool, pickup': bool, accepted': bool)
    requires done ==> done'
    requires !delivered' && done' ==> done
    requires delivered' ==> !departed' && !pickup' && !accepted'
    requires departed' ==> !pickup' && !accepted'
    requires pickup' ==> !accepted'
    ensures StageAfter(Furthest(s, delivered && done, departed, pickup, accepted),
                       delivered', done', departed', pickup', accepted')
            == Furthest(s, (delivered || delivered') && done', departed || departed', pickup || pickup', accepted
                || accepted')
  {
  }

  lemma SaysTheSame(b: Base, s: Base, e: Event, course: string)
    requires Ahead(b, s)
    ensures b.courses.Keys == s.courses.Keys
    ensures OnCourse(s, e, course) == OnCourse(b, e, course)
    ensures SaysDelivered(s, e) == SaysDelivered(b, e) && SaysDeparted(s, e) == SaysDeparted(b, e)
    ensures SaysPickup(s, e) == SaysPickup(b, e) && SaysAssigned(s, e) == SaysAssigned(b, e)
    ensures !(SaysDelivered(b, e) && SaysDeparted(b, e)) && !(SaysDelivered(b, e) && SaysPickup(b, e))
    ensures !(SaysDelivered(b, e) && SaysAssigned(b, e)) && !(SaysDeparted(b, e) && SaysPickup(b, e))
    ensures !(SaysDeparted(b, e) && SaysAssigned(b, e)) && !(SaysPickup(b, e) && SaysAssigned(b, e))
  {
    LiveIsFixed(b, s, e);
  }

  lemma DoneGrows(b: Base, s: Base, es: set<Event>, e: Event, course: string)
    requires IsTracking(e) && Ahead(b, s)
    requires forall r | r in b.deliveries :: s.deliveries[r].statut == DeliveryOutcome(b, es, r)
    ensures DoneAfter(s, e, course) <==> AllDone(b, es + {e}, course)
    ensures AllDone(b, es, course) ==> AllDone(b, es + {e}, course)
    ensures !(SaysDelivered(b, e) && OnCourse(b, e, course)) && DoneAfter(s, e, course) ==> AllDone(b, es, course)
  {
    forall r | r in b.deliveries
      ensures DeliveryMoved(s, e, r) == DeliveryOutcome(b, es + {e}, r)
      ensures TerminalDelivery(DeliveryOutcome(b, es, r)) ==> TerminalDelivery(DeliveryOutcome(b, es + {e}, r))
    {
      DeliveryStep(b, s, es, e, r);
    }
    if !(SaysDelivered(b, e) && OnCourse(b, e, course)) {
      DoneOnlyByDelivered(b, s, es, e, course);
    }
    hide DeliveryOutcome, DeliveryMoved;
  }

  lemma NewsGrow(b: Base, es: set<Event>, e: Event, ref: string)
    ensures DeliveredFor(b, es + {e}, ref) <==> DeliveredFor(b, es, ref) || (e.numero == ref && SaysDelivered(b, e))
    ensures DepartedFor(b, es + {e}, ref) <==> DepartedFor(b, es, ref) || (e.numero == ref && SaysDeparted(b, e))
  {
    hide SaysDelivered, SaysDeparted;
  }

  lemma ReportsGrow(b: Base, es: set<Event>, e: Event, course: string)
    ensures DeliveredOn(b, es + {e}, course) <==>
              DeliveredOn(b, es, course) || (OnCourse(b, e, course) && SaysDelivered(b, e))
    ensures DepartedOn(b, es + {e}, course) <==>
              DepartedOn(b, es, course) || (OnCourse(b, e, course) && SaysDeparted(b, e))
    ensures PickupOn(b, es + {e}, course) <==> PickupOn(b, es, course) || (OnCourse(b, e, course) && SaysPickup(b, e))
    ensures AssignedOn(b, es + {e}, course) <==>
              AssignedOn(b, es, course) || (OnCourse(b, e, course) && SaysAssigned(b, e))
  {
    hide OnCourse, SaysDelivered, SaysDeparted, SaysPickup, SaysAssigned;
  }

  /** An event which is not a delivery on this course finishes none of its deliveries. */
  lemma DoneOnlyByDelivered(b: Base, s: Base, es: set<Event>, e: Event, course: string)
    requires Ahead(b, s) && !(SaysDelivered(b, e) && OnCourse(b, e, course))
    requires forall r | r in b.deliveries :: s.deliveries[r].statut == DeliveryOutcome(b, es, r)
    ensures DoneAfter(s, e, course) ==> AllDone(b, es, course)
  {
    LiveIsFixed(b, s, e);
    if DoneAfter(s, e, course) {
      forall r | r in b.deliveries && b.deliveries[r].course == course
        ensures TerminalDelivery(DeliveryOutcome(b, es, r))
      {
        assert s.deliveries[r].course == course;
        assert TerminalDelivery(DeliveryMoved(s, e, r));
      }
    }
  }

  function EventSet(es: seq<Event>): set<Event> {
    set e | e in es
  }

  /** Main result: a serial run of tracking webhooks ends where the set of events says. */
  lemma {:induction false} RunReachesOutcome(b: Base, es: seq<Event>)
    requires forall e | e in es :: IsTracking(e)
    ensures StatusesOf(Run(b, es)) == Outcome(b, EventSet(es))
  {
    hide Handle, Ahead, DeliveryOutcome, OrderOutcome, CourseOutcome;
    if es == [] {
      NoEvent(b);
      assert EventSet(es) == {};
    } else {
      var init, last := es[..|es| - 1], es[|es| - 1];
      RunReachesOutcome(b, init);
      RunMovesAhead(b, init, 0);
      assert init[..0] == [];
      assert es == init + [last];
      assert EventSet(es) == EventSet(init) + {last};
      OneMoreEvent(b, Run(b, init), EventSet(init), last);
    }
  }

  lemma NoEvent(b: Base)
    ensures StatusesOf(b) == Outcome(b, {})
  {
    hide SaysDelivered, SaysDeparted, SaysPickup, SaysAssigned, OnCourse;
  }

  lemma OneMoreEvent(b: Base, s: Base, es: set<Event>, e: Event)
    requires IsTracking(e) && Ahead(b, s) && StatusesOf(s) == Outcome(b, es)
    ensures StatusesOf(Handle(s, e)) == Outcome(b, es + {e})
  {
    hide Handle, DeliveryOutcome, OrderOutcome, CourseOutcome, IsTracking, Ahead;
    var after := Handle(s, e);
    HandleMovesAhead(s, e);
    SameRows(b, s);
    SameRows(s, after);
    ReadTracking(b, s, es);
    forall r | r in b.deliveries
      ensures after.deliveries[r].statut == DeliveryOutcome(b, es + {e}, r)
    {
      OneMoreDelivery(b, s, es, e, r);
    }
    forall r | r in b.orders
      ensures after.orders[r].status == OrderOutcome(b, es + {e}, r)
    {
      OneMoreOrder(b, s, es, e, r);
    }
    forall c | c in b.courses
      ensures after.courses[c] == CourseOutcome(b, es + {e}, c)
    {
      OneMoreCourse(b, s, es, e, c);
    }
    ReadTracking(b, after, es + {e});
  }

  /** Tracking read row by row. */
  lemma ReadTracking(b: Base, s: Base, es: set<Event>)
    requires s.orders.Keys == b.orders.Keys && s.deliveries.Keys == b.deliveries.Keys
              && s.courses.Keys == b.courses.Keys
    ensures StatusesOf(s) == Outcome(b, es) <==>
            && (forall r | r in b.orders :: s.orders[r].status == OrderOutcome(b, es, r))
            && (forall r | r in b.deliveries :: s.deliveries[r].statut == DeliveryOutcome(b, es, r))
            && (forall c | c in b.courses :: s.courses[c] == CourseOutcome(b, es, c))
  {
    hide OrderOutcome, DeliveryOutcome, CourseOutcome;
    var t, o := StatusesOf(s), Outcome(b, es);
    assert t.orders.Keys == o.orders.Keys && t.deliveries.Keys == o.deliveries.Keys && t.courses.Keys == o.courses.Keys;
    if t == o {
      assert forall r | r in b.orders :: t.orders[r] == o.orders[r];
      assert forall r | r in b.deliveries :: t.deliveries[r] == o.deliveries[r];
    }
  }

  lemma OneMoreDelivery(b: Base, s: Base, es: set<Event>, e: Event, r: string)
    requires IsTracking(e) && Ahead(b, s) && r in b.deliveries && r in s.deliveries && r in Handle(s, e).deliveries
    requires s.deliveries[r].statut == DeliveryOutcome(b, es, r)
    ensures Handle(s, e).deliveries[r].statut == DeliveryOutcome(b, es + {e}, r)
  {
    hide Handle, IsTracking, Ahead;
    DeliveriesMove(s, e, r);
    DeliveryStep(b, s, es, e, r);
  }

  lemma OneMoreOrder(b: Base, s: Base, es: set<Event>, e: Event, r: string)
    requires IsTracking(e) && Ahead(b, s) && r in b.orders && r in s.orders && r in Handle(s, e).orders
    requires s.orders[r].status == OrderOutcome(b, es, r)
    ensures Handle(s, e).orders[r].status == OrderOutcome(b, es + {e}, r)
  {
    hide Handle, IsTracking, Ahead;
    OrdersMove(s, e, r);
    OrderStep(b, s, es, e, r);
  }

  lemma OneMoreCourse(b: Base, s: Base, es: set<Event>, e: Event, c: string)
    requires IsTracking(e) && Ahead(b, s) && c in b.courses && c in s.courses && c in Handle(s, e).courses
    requires s.deliveries.Keys == b.deliveries.Keys
    requires forall r | r in b.deliveries :: s.deliveries[r].statut == DeliveryOutcome(b, es, r)
    requires s.courses[c] == CourseOutcome(b, es, c)
    ensures Handle(s, e).courses[c] == CourseOutcome(b, es + {e}, c)
  {
    hide Handle, IsTracking, Ahead;
    CoursesMove(s, e, c);
    CourseStep(b, s, es, e, c);
  }

  lemma SameRows(b: Base, b': Base)
    requires Ahead(b, b')
    ensures b'.orders.Keys == b.orders.Keys && b'.deliveries.Keys == b.deliveries.Keys
             && b'.courses.Keys == b.courses.Keys
  {
  }

  /** Confluence and replay safety: permutations and duplicates make no difference. */
  lemma Confluence(b: Base, es: seq<Event>, es': seq<Event>)
    requires forall e | e in es + es' :: IsTracking(e)
    requires EventSet(es) == EventSet(es')
    ensures StatusesOf(Run(b, es)) == StatusesOf(Run(b, es'))
  {
    forall e | e in es ensures IsTracking(e) { assert e in es + es'; }
    forall e | e in es' ensures IsTracking(e) { assert e in es + es'; }
    RunReachesOutcome(b, es);
    RunReachesOutcome(b, es');
  }
}
