/**
 What each Turbo event does to the rows, spelled out in statuses, keys and codes: no rank, no helper of the
 handlers is named here.
 */
module TurboEffects {
  import opened Wrappers
  import opened Encaissement
  import opened TurboRows

  // ---- Tables -----------------------------------------------------------------------------------------

  /** From where a course may be moved to `next`; anywhere else it stays. */
  function CourseToward(s: CourseStatut, next: CourseStatut): CourseStatut {
    match next
    case Assigned => if s.PendingAssignment? then Assigned else s
    case AtRestaurant => if s.PendingAssignment? || s.Assigned? then AtRestaurant else s
    case InDelivery => if s.PendingAssignment? || s.Assigned? || s.AtRestaurant? then InDelivery else s
    case Finished => if s.PendingAssignment? || s.Assigned? || s.AtRestaurant? || s.InDelivery? then Finished else s
    case _ => s
  }

  predicate BeforeDeparture(s: OrderStatus) {
    s.Pending? || s.Accepted? || s.InProgress? || s.Ready?
  }

  predicate OrderOver(s: OrderStatus) {
    s.Cancelled? || s.Completed?
  }

  predicate DeliveryOver(s: DeliveryStatut) {
    s.Delivered? || s.Failed? || s.Dropped?
  }

  predicate Known(b: Base, r: string) {
    r != "" && r in b.orders && r in b.deliveries
  }

  /** The event is about a course which the delivery has left. */
  predicate FormerCourse(b: Base, r: string, named: string) {
    && Known(b, r) && named != "" && named != b.deliveries[r].course
    && b.deliveries[r].course != "" && b.deliveries[r].course in b.courses
  }

  predicate NothingLeft(deliveries: map<string, Delivery>, course: string) {
    forall x | x in deliveries && deliveries[x].course == course :: DeliveryOver(deliveries[x].statut)
  }

  predicate Awaits(b: Base, r: string) {
    exists p :: p in b.payments && p.order == r && p.status == AwaitingConfirmation
  }

  function WithStatut(b: Base, r: string, s: DeliveryStatut): map<string, Delivery>
    requires r in b.deliveries
  {
    b.deliveries[r := b.deliveries[r].(statut := s)]
  }

  function WithStatus(b: Base, r: string, s: OrderStatus): map<string, Order>
    requires r in b.orders
  {
    b.orders[r := b.orders[r].(status := s)]
  }

  function WithCourse(b: Base, c: string, next: CourseStatut): map<string, CourseStatut> {
    if c in b.courses then b.courses[c := CourseToward(b.courses[c], next)] else b.courses
  }

  lemma TablesAgree()
    ensures forall s: CourseStatut, n: CourseStatut | n.Assigned? || n.AtRestaurant? || n.InDelivery? || n.Finished? ::
              CourseToward(s, n) == CourseAfter(s, n)
    ensures forall s: OrderStatus :: OrderAfter(s, PickedUp) == if BeforeDeparture(s) then PickedUp else s
    ensures forall s: OrderStatus :: OrderAfter(s, Collected) == if BeforeDeparture(s)
             || s.PickedUp? then Collected else s
    ensures forall s: OrderStatus :: OrderAfter(s, Completed) == if OrderOver(s) then s else Completed
    ensures forall s: OrderStatus :: OrderOver(s) == TerminalOrder(s)
    ensures forall s: DeliveryStatut :: DeliveryOver(s) == TerminalDelivery(s)
    ensures forall s: DeliveryStatut :: 0 <= DeliveryRank(s) < DeliveryRank(InRoute) <==> s.Waiting?
    ensures forall s: DeliveryStatut :: 0 <= DeliveryRank(s) < DeliveryRank(Delivered) <==> !DeliveryOver(s)
    ensures DeliveryRank(InRoute) >= 0 && DeliveryRank(Delivered) >= 0
  {
  }

  lemma NothingLeftIff(deliveries: map<string, Delivery>, c: string)
    ensures ActiveDeliveries(deliveries, c) == {} <==> NothingLeft(deliveries, c)
  {
    if ActiveDeliveries(deliveries, c) == {} {
      forall x | x in deliveries && deliveries[x].course == c ensures DeliveryOver(deliveries[x].statut) {
        assert x !in ActiveDeliveries(deliveries, c);
      }
    } else {
      var x :| x in ActiveDeliveries(deliveries, c);
      assert !DeliveryOver(deliveries[x].statut);
    }
  }

  // ---- Webhooks ---------------------------------------------------------------------------------------

  /** Main result: an event about a course which the delivery has left changes nothing at all. */
  lemma FormerCourseIsIgnored(b: Base, r: string, named: string, reference: string, d: Declaration)
    requires FormerCourse(b, r, named)
    ensures Handle(b, CourierAssigned(r, named)) == b && Handle(b, PickupStarted(r, named)) == b
    ensures Handle(b, TakenAway(r, named)) == b && Handle(b, InTransit(r, named)) == b
    ensures Handle(b, HandedOver(r, named, d)) == b
    ensures Handle(b, CancelledByTurbo(r, Some(named), reference)) == b
  {
  }

  /** Main result: otherwise an assignment or an arrival at the restaurant moves the delivery's course, and only it. */
  lemma PickupEffect(b: Base, r: string, named: string)
    requires !FormerCourse(b, r, named)
    ensures Handle(b, CourierAssigned(r, named)) ==
              if Known(b, r) then b.(courses := WithCourse(b, b.deliveries[r].course, Assigned)) else b
    ensures Handle(b, PickupStarted(r, named)) ==
              if Known(b, r) then b.(courses := WithCourse(b, b.deliveries[r].course, AtRestaurant)) else b
  {
    TablesAgree();
    hide CourseAfter, OrderAfter, CourseRank, OrderRank, DeliveryRank, CourseToward;
  }

  /**
   Main result: otherwise a departure starts the course and the delivery, told once to the customer, and takes the
   order to PICKED_UP, with or without a delivery of ours.
   */
  lemma DepartureEffect(b: Base, r: string, named: string, e: Event)
    requires !FormerCourse(b, r, named) && (e == TakenAway(r, named) || e == InTransit(r, named))
    ensures var b' := Handle(b, e);
            && b'.payments == b.payments
            && b'.courses == (if Known(b, r) then WithCourse(b, b.deliveries[r].course, InDelivery) else b.courses)
            && (if Known(b, r) && b.deliveries[r].statut.Waiting?
                then b'.deliveries == WithStatut(b, r, InRoute) && b'.departures == b.departures + [r]
                else b'.deliveries == b.deliveries && b'.departures == b.departures)
            && b'.orders == (if r != "" && r in b.orders && BeforeDeparture(b.orders[r].status)
                             then WithStatus(b, r, PickedUp) else b.orders)
  {
    TablesAgree();
    hide CourseAfter, OrderAfter, CourseRank, OrderRank, DeliveryRank, CourseToward, BeforeDeparture, TerminalOrder;
    var course := if HasDelivery(b, r) then b.deliveries[r].course else "";
    var b1 := if HasDelivery(b, r) then AdvanceDelivery(AdvanceCourse(b, course, InDelivery), r, InRoute) else b;
    assert Handle(b, e) == SyncStatus(b1, r, PickedUp);
    hide Handle, Stale;
    SyncedOrders(b1, r, PickedUp);
  }

  /** The map after a status write, also when it writes what is there. */
  lemma SyncedOrders(b: Base, r: string, next: OrderStatus)
    ensures SyncStatus(b, r, next) == b.(orders := SyncStatus(b, r, next).orders)
    ensures SyncStatus(b, r, next).orders ==
              if r != "" && r in b.orders && OrderAfter(b.orders[r].status, next) != b.orders[r].status
              then WithStatus(b, r, OrderAfter(b.orders[r].status, next)) else b.orders
  {
    if HasOrder(b, r) {
      assert b.orders[r := b.orders[r].(status := b.orders[r].status)] == b.orders;
    }
    hide OrderAfter;
  }

  /** What a handover makes of the order: nothing once over, COMPLETED when paid, else COLLECTED. */
  function SettledStatus(o: Order): OrderStatus {
    if OrderOver(o.status) then o.status
    else if o.paid then Completed
    else Collected
  }

  /** What a handover or a confirmed code does to the payments, when it declares one. */
  ghost predicate Books(b: Base, payments: seq<Payment>, r: string, d: Declaration)
    requires r in b.orders
  {
    var lines := Normalised(d, b.orders[r].amount);
    if b.orders[r].paid || OrderOver(b.orders[r].status) || Awaits(b, r) then payments == b.payments
    else
      && |payments| == |b.payments| + |lines| && payments[..|b.payments|] == b.payments
      && forall i | 0 <= i < |lines| :: payments[|b.payments| + i] == Payment(r, lines[i], AwaitingConfirmation)
  }

  lemma DeclarationBooks(b: Base, r: string, d: Declaration)
    requires r in b.orders && !b.orders[r].paid && !OrderOver(b.orders[r].status)
    ensures Books(b, Declare(b, r, b.orders[r].amount, d).payments, r, d)
    ensures Declare(b, r, b.orders[r].amount, d) == b.(payments := Declare(b, r, b.orders[r].amount, d).payments)
  {
    if !Awaits(b, r) {
      var amount := b.orders[r].amount;
      AggregateConserves(d.entries, "");
      var lines := Normalised(d, amount);
      assert DistinctSources(lines);
      assert !HasPending(b.payments, r);
      hide Normalised, Aggregate;
      assert !Clashes(b.payments, r, lines);
      var rows := PaymentRows(r, lines);
      assert (b.payments + rows)[..|b.payments|] == b.payments;
    }
  }

  lemma Settles(b: Base, r: string, d: Declaration)
    requires r != "" && r in b.orders
    ensures var b' := SettleOrder(b, r, d);
            b' == b.(orders := WithStatus(b, r, SettledStatus(b.orders[r])), payments := b'.payments)
                && Books(b, b'.payments, r, d)
  {
    TablesAgree();
    if TerminalOrder(b.orders[r].status) {
      assert WithStatus(b, r, b.orders[r].status) == b.orders;
    } else if !b.orders[r].paid {
      DeclarationBooks(b, r, d);
      hide Books, Declare;
      assert OrderAfter(b.orders[r].status, Collected) == Collected;
    }
    hide OrderAfter, OrderRank, TerminalOrder, Declare;
  }

  /**
   Main result: otherwise a handover delivers an active delivery, completes its course when nothing is left on it,
   settles the order and books what was declared.
   */
  lemma HandoverEffect(b: Base, r: string, named: string, d: Declaration)
    requires !FormerCourse(b, r, named)
    ensures var b' := Handle(b, HandedOver(r, named, d));
            && b'.departures == b.departures
            && b'.deliveries == (if Known(b, r) && !DeliveryOver(b.deliveries[r].statut)
                                 then WithStatut(b, r, Delivered) else b.deliveries)
            && b'.courses == (if Known(b, r) && NothingLeft(b'.deliveries, b.deliveries[r].course)
                              then WithCourse(b, b.deliveries[r].course, Finished) else b.courses)
            && (if r != "" && r in b.orders
                then b'.orders == WithStatus(b, r, SettledStatus(b.orders[r])) && Books(b, b'.payments, r, d)
                else b'.orders == b.orders && b'.payments == b.payments)
  {
    var known := HasDelivery(b, r);
    var b1 := if known then CompleteIfDone(AdvanceDelivery(b, r, Delivered), b.deliveries[r].course) else b;
    assert Handle(b, HandedOver(r, named, d)) == SettleOrder(b1, r, d);
    hide Handle, Stale, SettledStatus, CompleteIfDone, AdvanceDelivery, NothingLeft, Normalised;
    if known {
      HandsOver(b, r);
    }
    if r != "" && r in b.orders {
      Settles(b1, r, d);
    }
    hide SettleOrder;
  }

  /** The delivery's and the course's half of a handover. */
  lemma HandsOver(b: Base, r: string)
    requires Known(b, r)
    ensures var b' := CompleteIfDone(AdvanceDelivery(b, r, Delivered), b.deliveries[r].course);
            && b' == b.(deliveries := b'.deliveries, courses := b'.courses)
            && b'.deliveries == (if DeliveryOver(b.deliveries[r].statut) then b.deliveries
                else WithStatut(b, r, Delivered))
            && b'.courses == (if NothingLeft(b'.deliveries, b.deliveries[r].course)
                              then WithCourse(b, b.deliveries[r].course, Finished) else b.courses)
  {
    TablesAgree();
    var b0 := AdvanceDelivery(b, r, Delivered);
    NothingLeftIff(b0.deliveries, b.deliveries[r].course);
    hide CourseAfter, CourseRank, DeliveryRank, CourseToward, NothingLeft, ActiveDeliveries, DeliveryOver;
  }

  /**
   Main result: otherwise the cancellation of one delivery cancels it if active, its course when nothing is left,
   and nothing else.
   */
  lemma CancellationEffect(b: Base, r: string, field: Option<string>, reference: string)
    requires Known(b, r) && (field.None? || !FormerCourse(b, r, field.value))
    ensures var b' := Handle(b, CancelledByTurbo(r, field, reference));
            var c := b.deliveries[r].course;
            && b' == b.(deliveries := b'.deliveries, courses := b'.courses)
            && if DeliveryOver(b.deliveries[r].statut) then b' == b
               else b'.deliveries == WithStatut(b, r, Dropped) && b'.courses == CoursesCancelled(b, b'.deliveries, c)
  {
    TablesAgree();
    NothingLeftIff(WithStatut(b, r, Dropped), b.deliveries[r].course);
    hide ActiveDeliveries, NothingLeft;
  }

  /** A course with nothing left is cancelled unless it was over. */
  function CoursesCancelled(b: Base, deliveries: map<string, Delivery>, c: string): map<string, CourseStatut> {
    if c in b.courses && NothingLeft(deliveries, c)
       && !(b.courses[c].Finished? || b.courses[c].Aborted? || b.courses[c].Expired?)
    then b.courses[c := Aborted] else b.courses
  }

  /**
   Main result: a group cancellation cancels every active delivery of the course named, then the course, and
   nothing else.
   */
  lemma GroupCancellationEffect(b: Base, r: string, field: Option<string>, reference: string)
    requires !Known(b, r)
    ensures var b' := Handle(b, CancelledByTurbo(r, field, reference));
            var group := if field.Some? then field.value else reference;
            if group == "" || group !in b.courses then b' == b
            else
              && b' == b.(deliveries := b'.deliveries, courses := b'.courses)
              && b'.deliveries.Keys == b.deliveries.Keys
              && (forall x | x in b.deliveries :: b'.deliveries[x] ==
                    if b.deliveries[x].course == group && !DeliveryOver(b.deliveries[x].statut)
                    then b.deliveries[x].(statut := Dropped) else b.deliveries[x])
              && b'.courses == (if b.courses[group].Finished? || b.courses[group].Aborted? || b.courses[group].Expired?
                                then b.courses else b.courses[group := Aborted])
  {
    TablesAgree();
    var group := if field.Some? then field.value else reference;
    if group != "" && group in b.courses {
      var b1 := DropGroup(b, group);
      forall x | x in b.deliveries
        ensures b1.deliveries[x] ==
                if b.deliveries[x].course == group && !DeliveryOver(b.deliveries[x].statut)
                then b.deliveries[x].(statut := Dropped) else b.deliveries[x]
      {
      }
      NothingLeftIff(b1.deliveries, group);
      assert NothingLeft(b1.deliveries, group);
      hide ActiveDeliveries, DropGroup, NothingLeft;
    }
  }

  // ---- Codes ------------------------------------------------------------------------------------------

  /** The order can still be confirmed with this key: it is open, and the key is its own restaurant's. */
  predicate Confirmable(b: Base, r: string, key: string) {
    Known(b, r) && !OrderOver(b.orders[r].status) && key != "" && key == b.orders[r].apiKey
  }

  /**
   Main result: a code is confirmed exactly for an open order, with its own key and pin, before the fifth wrong
   one.
   */
  lemma ConfirmedIff(b: Base, r: string, code: string, key: string)
    ensures Validate(b, r, code, key) == Confirmed <==>
              && Confirmable(b, r, key) && !b.deliveries[r].statut.Delivered? && b.deliveries[r].attempts < 5
              && code != "" && code == b.deliveries[r].pin
  {
  }

  /** Each other answer, too, has its exact condition; what is asked first answers first. */
  lemma VerdictIff(b: Base, r: string, code: string, key: string)
    ensures var v := Validate(b, r, code, key);
            && (v.MissingInput? <==> r == "" || code == "")
            && (v.UnknownDelivery? <==> r != "" && code != "" && !Known(b, r))
            && (v.OrderCancelled? <==> code != "" && Known(b, r) && b.orders[r].status.Cancelled?)
            && (v.AlreadyConfirmed? <==>
                  && code != "" && Known(b, r)
                  && (b.orders[r].status.Completed? || (Confirmable(b, r, key) && b.deliveries[r].statut.Delivered?)))
            && (v.WrongKey? <==>
                  code != "" && Known(b, r) && !OrderOver(b.orders[r].status) && !Confirmable(b, r, key))
            && (v.Blocked? <==>
                  && code != "" && Confirmable(b, r, key) && !b.deliveries[r].statut.Delivered?
                  && b.deliveries[r].attempts >= 5)
            && (v.WrongCode? <==>
                  && code != "" && Confirmable(b, r, key) && !b.deliveries[r].statut.Delivered?
                  && b.deliveries[r].attempts < 5 && code != b.deliveries[r].pin)
            && (v.WrongCode? ==> v.attempts == b.deliveries[r].attempts + 1)
  {
  }

  /** The call says how the customer paid. */
  predicate Declares(d: Declaration) {
    |d.entries| > 0 || (d.code.Some? && d.code.value != "")
  }

  /**
   Main result: a wrong code is counted and changes nothing else; a confirmed one delivers, settles the order, books
   the payment only when the call declares one, and completes the course when nothing is left; all else changes nothing.
   */
  lemma CodeEffect(b: Base, r: string, code: string, key: string, d: Declaration)
    ensures var b' := Handle(b, CodeEntered(r, code, key, d));
            match Validate(b, r, code, key)
            case WrongCode(n) => r in b.deliveries
                && b' == b.(deliveries := b.deliveries[r := b.deliveries[r].(attempts := n)])
            case Confirmed =>
              && r in b.orders && r in b.deliveries && b'.departures == b.departures
              && b'.deliveries == WithStatut(b, r, Delivered)
              && b'.orders == WithStatus(b, r, SettledStatus(b.orders[r]))
              && b'.courses == (if NothingLeft(b'.deliveries, b.deliveries[r].course)
                                then WithCourse(b, b.deliveries[r].course, Finished) else b.courses)
              && (if Declares(d) then Books(b, b'.payments, r, d) else b'.payments == b.payments)
            case _ => b' == b
  {
    if Validate(b, r, code, key).Confirmed? {
      ConfirmationEffect(b, r, d);
      ConfirmedIff(b, r, code, key);
    }
    hide ConfirmDelivery, Validate, Books, NothingLeft, WithCourse, SettledStatus;
  }

  lemma ConfirmationEffect(b: Base, r: string, d: Declaration)
    requires Known(b, r) && !OrderOver(b.orders[r].status)
    ensures var b' := ConfirmDelivery(b, r, d);
            && b'.departures == b.departures
            && b'.deliveries == WithStatut(b, r, Delivered)
            && b'.orders == WithStatus(b, r, SettledStatus(b.orders[r]))
            && b'.courses == (if NothingLeft(b'.deliveries, b.deliveries[r].course)
                              then WithCourse(b, b.deliveries[r].course, Finished) else b.courses)
            && (if Declares(d) then Books(b, b'.payments, r, d) else b'.payments == b.payments)
  {
    var b1, c := SetDelivery(b, r, Delivered), b.deliveries[r].course;
    var b2 := if b.orders[r].paid then SyncStatus(b1, r, Completed)
              else SyncStatus(if CarriesPayment(d) then Declare(b1, r, b.orders[r].amount, d) else b1, r, Collected);
    assert ConfirmDelivery(b, r, d) == CompleteIfDone(b2, c);
    hide ConfirmDelivery, Declare, NothingLeft, WithCourse, Books, SettledStatus, CompleteIfDone;
    ConfirmedOrder(b, b1, r, d);
    Completes(b2, c);
  }

  lemma Completes(b: Base, c: string)
    ensures CompleteIfDone(b, c) ==
              b.(courses := if NothingLeft(b.deliveries, c) then WithCourse(b, c, Finished) else b.courses)
  {
    TablesAgree();
    NothingLeftIff(b.deliveries, c);
    hide NothingLeft, ActiveDeliveries, CourseAfter, CourseToward;
  }

  /** The order's half of a confirmation. */
  lemma ConfirmedOrder(b: Base, b1: Base, r: string, d: Declaration)
    requires Known(b, r) && !OrderOver(b.orders[r].status) && b1 == b.(deliveries := b1.deliveries)
    ensures var b2 := if b.orders[r].paid then SyncStatus(b1, r, Completed)
                      else SyncStatus(if CarriesPayment(d) then Declare(b1, r, b.orders[r].amount, d)
                          else b1, r, Collected);
            && b2 == b1.(orders := WithStatus(b, r, SettledStatus(b.orders[r])), payments := b2.payments)
            && (if Declares(d) then Books(b, b2.payments, r, d) else b2.payments == b.payments)
  {
    TablesAgree();
    if !b.orders[r].paid {
      DeclarationBooks(b1, r, d);
      assert OrderAfter(b.orders[r].status, Collected) == Collected;
    }
    hide OrderAfter, OrderRank, Declare, Normalised;
  }

  /** Which webhooks are acknowledged as processed. */
  lemma AcknowledgedIff(b: Base, r: string, named: string, field: Option<string>, reference: string, d: Declaration)
    ensures Processed(b, CourierAssigned(r, named)) <==> Known(b, r)
    ensures Processed(b, PickupStarted(r, named))
    ensures Processed(b, TakenAway(r, named)) <==> r != "" && r in b.orders
    ensures Processed(b, InTransit(r, named)) <==> r != "" && r in b.orders
    ensures Processed(b, HandedOver(r, named, d)) <==> r != "" && r in b.orders
    ensures Processed(b, CancelledByTurbo(r, field, reference)) <==>
              || (r != "" && r in b.orders)
              || (var group := if field.Some? then field.value else reference; group != "" && group in b.courses)
  {
  }
}
