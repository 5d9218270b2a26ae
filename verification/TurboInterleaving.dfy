/**
 Turbo handlers interleaved at every await: two backends, replays and code validations at once.

 A handler is a program of atomic database accesses; executing one may push the accesses it
 decides on. `Drain` runs a program without interruption and meets the serial `Handle`.
 The rows themselves (which deliveries exist, on which course) do not change during a run.
 */
module TurboInterleaving {
  import opened Encaissement
  import opened TurboRows

  datatype Instr =
    | Start(event: Event)
    | ReadCourse(course: string, toward: CourseStatut)
    | WriteCourse(course: string, toward: CourseStatut)
    | MoveDelivery(ref: string, statut: DeliveryStatut)
    | WriteDelivered(ref: string)
    | WriteAttempts(ref: string, attempts: nat)
    | CountThenComplete(course: string)
    | CountThenCancel(course: string)
    | ClaimCourseAborted(course: string)
    | ClaimDropped(ref: string, course: string)
    | DropAll(course: string)
    | ReadOrder(ref: string, status: OrderStatus)
    | WriteOrder(ref: string, status: OrderStatus)
    | ReadForSettling(ref: string, declaration: Declaration)
    | CheckPending(ref: string, amount: int, declaration: Declaration)
    | InsertLines(ref: string, lines: seq<Line>)

  type Program = seq<Instr>

  /** What a handler decides on after its first read. */
  function Plan(b: Base, e: Event): Program {
    var known := HasDelivery(b, e.numero);
    if known && Stale(b, e.numero, CourseNamed(e)) then []
    else
      var course := if known then b.deliveries[e.numero].course else "";
      match e
      case CourierAssigned(_, _) => if known then [ReadCourse(course, Assigned)] else []
      case PickupStarted(_, _) => if known then [ReadCourse(course, AtRestaurant)] else []
      case TakenAway(numero, _) =>
        (if known then [ReadCourse(course, InDelivery), MoveDelivery(numero, InRoute)] else [])
            + [ReadOrder(numero, PickedUp)]
      case InTransit(numero, _) =>
        (if known then [ReadCourse(course, InDelivery), MoveDelivery(numero, InRoute)] else [])
            + [ReadOrder(numero, PickedUp)]
      case HandedOver(numero, _, d) =>
        (if known then [MoveDelivery(numero, Delivered), CountThenComplete(course)] else [])
            + [ReadForSettling(numero, d)]
      case CancelledByTurbo(numero, _, _) =>
        if known then [ClaimDropped(numero, course)]
        else
          var group := GroupNamed(e);
          if group != "" && group in b.courses then [DropAll(group), CountThenCancel(group)] else []
      case CodeEntered(numero, code, key, d) =>
        match Validate(b, numero, code, key)
        case WrongCode(n) => [WriteAttempts(numero, n)]
        case Confirmed =>
          [WriteDelivered(numero)]
          + (if b.orders[numero].paid then [ReadOrder(numero, Completed)]
             else (if CarriesPayment(d) then [CheckPending(numero, b.orders[numero].amount, d)] else [])
                  + [ReadOrder(numero, Collected)])
          + [CountThenComplete(course)]
        case _ => []
  }

  /** One atomic access: the base it leaves and the accesses it decides on. */
  function Exec(b: Base, i: Instr): (Base, Program) {
    match i
    case Start(e) => (b, Plan(b, e))
    case ReadCourse(c, next) =>
      (b, if c in b.courses && CourseAfter(b.courses[c], next) != b.courses[c] then [WriteCourse(c, next)] else [])
    case WriteCourse(c, next) => (if c in b.courses then b.(courses := b.courses[c := next]) else b, [])
    case MoveDelivery(r, next) => (AdvanceDelivery(b, r, next), [])
    case WriteDelivered(r) => (SetDelivery(b, r, Delivered), [])
    case WriteAttempts(r, n) =>
      (if r in b.deliveries then b.(deliveries := b.deliveries[r := b.deliveries[r].(attempts := n)]) else b, [])
    case CountThenComplete(c) => (b, if ActiveDeliveries(b.deliveries, c) == {} then [ReadCourse(c, Finished)] else [])
    case CountThenCancel(c) => (b, if ActiveDeliveries(b.deliveries, c) == {} then [ClaimCourseAborted(c)] else [])
    case ClaimCourseAborted(c) => (ClaimAborted(b, c), [])
    case ClaimDropped(r, c) =>
      if r in b.deliveries && !TerminalDelivery(b.deliveries[r].statut)
      then (SetDelivery(b, r, Dropped), [CountThenCancel(c)]) else (b, [])
    case DropAll(c) => (DropGroup(b, c), [])
    case ReadOrder(r, next) =>
      (b, if HasOrder(b, r) && OrderAfter(b.orders[r].status, next) != b.orders[r].status then [WriteOrder(r, next)]
          else [])
    case WriteOrder(r, next) =>
      (if r in b.orders then b.(orders := b.orders[r := b.orders[r].(status := next)]) else b, [])
    case ReadForSettling(r, d) =>
      (b, if !HasOrder(b, r) || TerminalOrder(b.orders[r].status) then []
          else if b.orders[r].paid then [ReadOrder(r, Completed)]
          else [CheckPending(r, b.orders[r].amount, d), ReadOrder(r, Collected)])
    case CheckPending(r, amount, d) =>
      (b, if HasPending(b.payments, r) then [] else [InsertLines(r, Normalised(d, amount))])
    case InsertLines(r, lines) => (InsertPayments(b, r, lines), [])
  }

  // ---- Running a handler without interruption is the serial handler -------------------------

  function Cost(i: Instr): nat {
    match i
    case Start(_) => 12
    case ReadForSettling(_, _) => 6
    case CountThenComplete(_) => 3
    case ClaimDropped(_, _) => 3
    case ReadCourse(_, _) => 2
    case CountThenCancel(_) => 2
    case ReadOrder(_, _) => 2
    case CheckPending(_, _, _) => 2
    case _ => 1
  }

  function CostOf(p: Program): nat {
    if p == [] then 0 else Cost(p[0]) + CostOf(p[1..])
  }

  lemma {:induction false} CostOfConcat(p: Program, q: Program)
    ensures CostOf(p + q) == CostOf(p) + CostOf(q)
  {
    if p == [] {
      assert p + q == q;
    } else {
      CostOfConcat(p[1..], q);
      assert (p + q)[1..] == p[1..] + q;
    }
  }

  lemma CostOfUpToTwo(i: Instr, j: Instr)
    ensures CostOf([]) == 0 && CostOf([i]) == Cost(i) && CostOf([i, j]) == Cost(i) + Cost(j)
  {
    assert [i, j][1..] == [j] && [i][1..] == [] && [j][1..] == [];
    assert CostOf([j]) == Cost(j) + CostOf([]);
  }

  lemma PlanIsShort(b: Base, e: Event)
    ensures CostOf(Plan(b, e)) < Cost(Start(e))
  {
    hide Stale, Validate, CarriesPayment, CostOf, CourseNamed, GroupNamed;
    var n := e.numero;
    var course := if HasDelivery(b, n) then b.deliveries[n].course else "";
    CostOfUpToTwo(ReadOrder(n, PickedUp), ReadOrder(n, PickedUp));
    match e {
      case CourierAssigned(_, _) => CostOfUpToTwo(ReadCourse(course, Assigned), ReadOrder(n, PickedUp));
      case PickupStarted(_, _) => CostOfUpToTwo(ReadCourse(course, AtRestaurant), ReadOrder(n, PickedUp));
      case TakenAway(_, _) => DepartureIsShort(course, n);
      case InTransit(_, _) => DepartureIsShort(course, n);
      case HandedOver(_, _, d) =>
        CostOfUpToTwo(ReadForSettling(n, d), ReadOrder(n, PickedUp));
        CostOfUpToTwo(MoveDelivery(n, Delivered), CountThenComplete(course));
        CostOfConcat([MoveDelivery(n, Delivered), CountThenComplete(course)], [ReadForSettling(n, d)]);
        CostOfConcat([], [ReadForSettling(n, d)]);
      case CancelledByTurbo(_, _, _) =>
        CostOfUpToTwo(ClaimDropped(n, course), ReadOrder(n, PickedUp));
        CostOfUpToTwo(DropAll(GroupNamed(e)), CountThenCancel(GroupNamed(e)));
      case CodeEntered(_, code, key, d) =>
        match Validate(b, n, code, key) {
          case WrongCode(k) => CostOfUpToTwo(WriteAttempts(n, k), ReadOrder(n, PickedUp));
          case Confirmed => ConfirmationIsShort(b, n, course, d);
          case _ =>
        }
    }
  }

  lemma DepartureIsShort(course: string, n: string)
    ensures CostOf([ReadCourse(course, InDelivery), MoveDelivery(n, InRoute)] + [ReadOrder(n, PickedUp)]) < 12
    ensures CostOf([] + [ReadOrder(n, PickedUp)]) < 12
  {
    hide CostOf;
    CostOfUpToTwo(ReadCourse(course, InDelivery), MoveDelivery(n, InRoute));
    CostOfUpToTwo(ReadOrder(n, PickedUp), ReadOrder(n, PickedUp));
    CostOfConcat([ReadCourse(course, InDelivery), MoveDelivery(n, InRoute)], [ReadOrder(n, PickedUp)]);
    CostOfConcat([], [ReadOrder(n, PickedUp)]);
  }

  lemma ConfirmationIsShort(b: Base, n: string, course: string, d: Declaration)
    requires n in b.orders
    ensures CostOf([WriteDelivered(n)]
                   + (if b.orders[n].paid then [ReadOrder(n, Completed)]
                      else
                        (if CarriesPayment(d) then [CheckPending(n, b.orders[n].amount, d)] else [])
                        + [ReadOrder(n, Collected)])
                   + [CountThenComplete(course)]) < 12
  {
    hide CostOf, CarriesPayment;
    var declare := if CarriesPayment(d) then [CheckPending(n, b.orders[n].amount, d)] else [];
    var settle := if b.orders[n].paid then [ReadOrder(n, Completed)] else declare + [ReadOrder(n, Collected)];
    CostOfUpToTwo(WriteDelivered(n), WriteDelivered(n));
    CostOfUpToTwo(ReadOrder(n, Completed), WriteDelivered(n));
    CostOfUpToTwo(ReadOrder(n, Collected), WriteDelivered(n));
    CostOfUpToTwo(CheckPending(n, b.orders[n].amount, d), WriteDelivered(n));
    CostOfUpToTwo(CountThenComplete(course), WriteDelivered(n));
    CostOfConcat(declare, [ReadOrder(n, Collected)]);
    CostOfConcat([WriteDelivered(n)], settle);
    CostOfConcat([WriteDelivered(n)] + settle, [CountThenComplete(course)]);
  }

  lemma ExecShrinks(b: Base, i: Instr)
    ensures CostOf(Exec(b, i).1) < Cost(i)
  {
    if i.Start? {
      PlanIsShort(b, i.event);
    } else {
      hide ActiveDeliveries, CourseAfter, OrderAfter, HasPending, Normalised, Clashes, DeliveryRank;
      forall i: Instr ensures CostOf([i]) == Cost(i) { }
      forall i: Instr, j: Instr ensures CostOf([i, j]) == Cost(i) + Cost(j) { assert [i, j][1..] == [j]; }
    }
  }

  ghost function Drain(b: Base, p: Program): Base
    decreases CostOf(p)
  {
    if p == [] then b
    else
      var (b', more) := Exec(b, p[0]);
      ExecShrinks(b, p[0]);
      CostOfConcat(more, p[1..]);
      Drain(b', more + p[1..])
  }

  lemma {:induction false} DrainConcat(b: Base, p: Program, q: Program)
    ensures Drain(b, p + q) == Drain(Drain(b, p), q)
    decreases CostOf(p)
  {
    hide Exec;
    if p == [] {
      assert p + q == q;
    } else {
      var (b', more) := Exec(b, p[0]);
      ExecShrinks(b, p[0]);
      CostOfConcat(more, p[1..]);
      DrainConcat(b', more + p[1..], q);
      assert (p + q)[1..] == p[1..] + q;
      assert more + (p + q)[1..] == more + p[1..] + q;
    }
  }

  lemma DrainOne(b: Base, i: Instr)
    ensures Drain(b, [i]) == Drain(Exec(b, i).0, Exec(b, i).1)
  {
    hide Exec;
    assert Exec(b, i).1 + [i][1..] == Exec(b, i).1;
  }

  lemma DrainTwo(b: Base, i: Instr, j: Instr)
    ensures Drain(b, [i, j]) == Drain(Drain(b, [i]), [j])
  {
    assert [i, j] == [i] + [j];
    DrainConcat(b, [i], [j]);
  }

  /** Accesses that decide on nothing more. */
  lemma DrainWrite(b: Base, i: Instr)
    requires Exec(b, i).1 == []
    ensures Drain(b, [i]) == Exec(b, i).0
  {
    hide Exec;
    DrainOne(b, i);
  }

  lemma DrainCourse(b: Base, c: string, next: CourseStatut)
    ensures Drain(b, [ReadCourse(c, next)]) == AdvanceCourse(b, c, next)
  {
    DrainOne(b, ReadCourse(c, next));
    hide CourseRank, Drain;
    DrainWrite(b, WriteCourse(c, next));
    DrainNothing(b);
    if c in b.courses && CourseAfter(b.courses[c], next) == b.courses[c] {
      assert b.courses[c := b.courses[c]] == b.courses;
    }
  }

  lemma DrainNothing(b: Base)
    ensures Drain(b, []) == b
  {
  }

  lemma DrainOrder(b: Base, r: string, next: OrderStatus)
    ensures Drain(b, [ReadOrder(r, next)]) == SyncStatus(b, r, next)
  {
    DrainOne(b, ReadOrder(r, next));
    hide OrderRank, Drain;
    DrainWrite(b, WriteOrder(r, next));
    DrainNothing(b);
    if r in b.orders && OrderAfter(b.orders[r].status, next) == b.orders[r].status {
      assert b.orders[r := b.orders[r]] == b.orders;
    }
  }

  lemma DrainCounts(b: Base, c: string)
    ensures Drain(b, [CountThenComplete(c)]) == CompleteIfDone(b, c)
    ensures Drain(b, [CountThenCancel(c)]) == CancelIfDone(b, c)
  {
    DrainOne(b, CountThenComplete(c));
    DrainOne(b, CountThenCancel(c));
    DrainCourse(b, c, Finished);
    DrainWrite(b, ClaimCourseAborted(c));
    DrainNothing(b);
    hide Drain, ActiveDeliveries, AdvanceCourse, ClaimAborted;
  }

  lemma DrainDeclare(b: Base, r: string, amount: int, d: Declaration)
    ensures Drain(b, [CheckPending(r, amount, d)]) == Declare(b, r, amount, d)
  {
    hide Drain, InsertPayments, HasPending, Normalised;
    DrainOne(b, CheckPending(r, amount, d));
    DrainWrite(b, InsertLines(r, Normalised(d, amount)));
    DrainNothing(b);
  }

  lemma DrainSettle(b: Base, r: string, d: Declaration)
    ensures Drain(b, [ReadForSettling(r, d)]) == SettleOrder(b, r, d)
  {
    DrainOne(b, ReadForSettling(r, d));
    DrainNothing(b);
    DrainOrder(b, r, Completed);
    if HasOrder(b, r) {
      var amount := b.orders[r].amount;
      DrainTwo(b, CheckPending(r, amount, d), ReadOrder(r, Collected));
      DrainDeclare(b, r, amount, d);
      DrainOrder(Declare(b, r, amount, d), r, Collected);
    }
    hide Drain, SyncStatus, Declare;
  }

  lemma DrainDeparture(b: Base, r: string, c: string)
    ensures Drain(b, [ReadCourse(c, InDelivery), MoveDelivery(r, InRoute)] + [ReadOrder(r, PickedUp)])
            == SyncStatus(AdvanceDelivery(AdvanceCourse(b, c, InDelivery), r, InRoute), r, PickedUp)
  {
    var b1 := AdvanceCourse(b, c, InDelivery);
    DrainConcat(b, [ReadCourse(c, InDelivery), MoveDelivery(r, InRoute)], [ReadOrder(r, PickedUp)]);
    DrainTwo(b, ReadCourse(c, InDelivery), MoveDelivery(r, InRoute));
    DrainCourse(b, c, InDelivery);
    DrainWrite(b1, MoveDelivery(r, InRoute));
    DrainOrder(AdvanceDelivery(b1, r, InRoute), r, PickedUp);
    hide Drain, SyncStatus, AdvanceDelivery, AdvanceCourse;
  }

  lemma DrainHandover(b: Base, r: string, c: string, d: Declaration)
    ensures Drain(b, [MoveDelivery(r, Delivered), CountThenComplete(c)] + [ReadForSettling(r, d)])
            == SettleOrder(CompleteIfDone(AdvanceDelivery(b, r, Delivered), c), r, d)
  {
    var b1 := AdvanceDelivery(b, r, Delivered);
    DrainConcat(b, [MoveDelivery(r, Delivered), CountThenComplete(c)], [ReadForSettling(r, d)]);
    DrainTwo(b, MoveDelivery(r, Delivered), CountThenComplete(c));
    DrainWrite(b, MoveDelivery(r, Delivered));
    DrainCounts(b1, c);
    DrainSettle(CompleteIfDone(b1, c), r, d);
    hide Drain, SettleOrder, CompleteIfDone, AdvanceDelivery;
  }

  lemma DrainGroupCancellation(b: Base, c: string)
    ensures Drain(b, [DropAll(c), CountThenCancel(c)]) == CancelIfDone(DropGroup(b, c), c)
  {
    DrainTwo(b, DropAll(c), CountThenCancel(c));
    DrainWrite(b, DropAll(c));
    DrainCounts(DropGroup(b, c), c);
    hide Drain, DropGroup, CancelIfDone;
  }

  lemma DrainCancellation(b: Base, r: string, c: string)
    requires r in b.deliveries
    ensures Drain(b, [ClaimDropped(r, c)])
            == if TerminalDelivery(b.deliveries[r].statut) then b else CancelIfDone(SetDelivery(b, r, Dropped), c)
  {
    DrainOne(b, ClaimDropped(r, c));
    DrainNothing(b);
    hide Drain, CancelIfDone, SetDelivery;
    DrainCounts(SetDelivery(b, r, Dropped), c);
  }

  lemma DrainConfirmation(b: Base, r: string, d: Declaration)
    requires HasDelivery(b, r)
    ensures var c := b.deliveries[r].course;
            Drain(b, [WriteDelivered(r)]
                     + (if b.orders[r].paid then [ReadOrder(r, Completed)]
                        else
                          (if CarriesPayment(d) then [CheckPending(r, b.orders[r].amount, d)] else [])
                          + [ReadOrder(r, Collected)])
                     + [CountThenComplete(c)])
            == ConfirmDelivery(b, r, d)
  {
    hide CarriesPayment;
    var c, amount := b.deliveries[r].course, b.orders[r].amount;
    var declare := if CarriesPayment(d) then [CheckPending(r, amount, d)] else [];
    var settle := if b.orders[r].paid then [ReadOrder(r, Completed)] else declare + [ReadOrder(r, Collected)];
    var b1 := SetDelivery(b, r, Delivered);
    DrainConcat(b, [WriteDelivered(r)] + settle, [CountThenComplete(c)]);
    DrainConcat(b, [WriteDelivered(r)], settle);
    DrainWrite(b, WriteDelivered(r));
    DrainOrder(b1, r, Completed);
    DrainConcat(b1, declare, [ReadOrder(r, Collected)]);
    DrainDeclare(b1, r, amount, d);
    DrainNothing(b1);
    var b2 := Drain(b1, declare);
    DrainOrder(b2, r, Collected);
    DrainCounts(Drain(b1, settle), c);
    hide Drain, SyncStatus, Declare, SetDelivery, CompleteIfDone;
  }

  /** An uninterrupted handler does what the serial handler does. */
  lemma DrainIsHandle(b: Base, e: Event)
    ensures Drain(b, [Start(e)]) == Handle(b, e)
  {
    DrainOne(b, Start(e));
    DrainNothing(b);
    var known := HasDelivery(b, e.numero);
    var course := if known then b.deliveries[e.numero].course else "";
    hide Drain, Stale, AdvanceCourse, AdvanceDelivery, SyncStatus, CompleteIfDone, SettleOrder, ConfirmDelivery,
      SetDelivery, DropGroup, CancelIfDone, GroupNamed, CourseNamed, CarriesPayment;
    match e {
      case CourierAssigned(_, _) => DrainCourse(b, course, Assigned);
      case PickupStarted(_, _) => DrainCourse(b, course, AtRestaurant);
      case TakenAway(numero, _) => DrainDeparture(b, numero, course); DrainOrder(b, numero, PickedUp);
      case InTransit(numero, _) => DrainDeparture(b, numero, course); DrainOrder(b, numero, PickedUp);
      case HandedOver(numero, _, d) => DrainHandover(b, numero, course, d); DrainSettle(b, numero, d);
      case CancelledByTurbo(numero, _, _) =>
        if known { DrainCancellation(b, numero, course); }
        DrainGroupCancellation(b, GroupNamed(e));
      case CodeEntered(numero, code, key, d) =>
        hide Validate;
        match Validate(b, numero, code, key) {
          case WrongCode(n) => DrainWrite(b, WriteAttempts(numero, n));
          case Confirmed => DrainConfirmation(b, numero, d);
          case _ =>
        }
    }
  }
}
