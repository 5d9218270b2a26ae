/**
 `advanceCourse` and `syncStatus` read a status, compare ranks, then write without a guard. Over every
 interleaved run: a status goes back exactly when such a write lands after another access moved the
 status past what it writes.
 */
module TurboRaces {
  import opened Wrappers
  import opened Encaissement
  import opened TurboRows
  import opened TurboConfluence
  import opened TurboInterleaving
  import opened TurboSystem

  // ---- The two kinds of ranked status -----------------------------------------------------------------

  datatype Cell = OfCourse(id: string) | OfOrder(id: string)

  datatype Value = CourseValue(course: CourseStatut) | OrderValue(order: OrderStatus)

  predicate Has(b: Base, cell: Cell) {
    match cell
    case OfCourse(c) => c in b.courses
    case OfOrder(r) => HasOrder(b, r)
  }

  function ValueOf(b: Base, cell: Cell): Value
    requires Has(b, cell)
  {
    match cell
    case OfCourse(c) => CourseValue(b.courses[c])
    case OfOrder(r) => OrderValue(b.orders[r].status)
  }

  /** Unchanged, or ahead; what is terminal stays. */
  ghost predicate MayBecome(v: Value, v': Value) {
    match (v, v')
    case (CourseValue(s), CourseValue(s')) => CourseMayBecome(s, s')
    case (OrderValue(s), OrderValue(s')) => OrderMayBecome(s, s')
    case _ => false
  }

  /** The rank comparison would refuse to go from `v` to a different `next`. */
  predicate Past(v: Value, next: Value) {
    match (v, next)
    case (CourseValue(s), CourseValue(n)) => CourseAfter(s, n) == s != n
    case (OrderValue(s), OrderValue(n)) => OrderAfter(s, n) == s != n
    case _ => false
  }

  predicate IsRead(i: Instr, cell: Cell, next: Value) {
    match cell
    case OfCourse(c) => next.CourseValue? && i == ReadCourse(c, next.course)
    case OfOrder(r) => next.OrderValue? && i == ReadOrder(r, next.order)
  }

  predicate IsWrite(i: Instr, cell: Cell, next: Value) {
    match cell
    case OfCourse(c) => next.CourseValue? && i == WriteCourse(c, next.course)
    case OfOrder(r) => next.OrderValue? && i == WriteOrder(r, next.order)
  }

  predicate Writing(i: Instr) {
    i.WriteCourse? || i.WriteOrder?
  }

  /** Handlers only aim at ranked statuses. */
  predicate Ranked(i: Instr) {
    match i
    case ReadCourse(_, next) => CourseRank(next) >= 0
    case WriteCourse(_, next) => CourseRank(next) >= 0
    case ReadOrder(_, next) => !next.Cancelled?
    case WriteOrder(_, next) => !next.Cancelled?
    case _ => true
  }

  predicate RankedValue(next: Value) {
    match next
    case CourseValue(s) => CourseRank(s) >= 0
    case OrderValue(s) => !s.Cancelled?
  }

  lemma PastLasts(v: Value, v': Value, next: Value)
    requires RankedValue(next) && Past(v, next) && MayBecome(v, v')
    ensures Past(v', next)
  {
  }

  lemma PastIsBehind(v: Value, next: Value)
    requires RankedValue(next) && v.CourseValue? == next.CourseValue?
    ensures Past(v, next) <==> !MayBecome(v, next)
  {
  }

  // ---- One access -------------------------------------------------------------------------------------

  lemma PlanIsRanked(b: Base, e: Event)
    ensures forall k | 0 <= k < |Plan(b, e)| :: Ranked(Plan(b, e)[k]) && !Writing(Plan(b, e)[k])
  {
    hide Stale, Validate, CarriesPayment, CourseNamed, GroupNamed;
  }

  /** A write is only decided on by its own read, which found the status not past it. */
  lemma DecidesWrites(b: Base, i: Instr)
    requires Ranked(i)
    ensures var more := Exec(b, i).1;
            && (forall k | 0 <= k < |more| :: Ranked(more[k]))
            && (forall k | 0 <= k < |more| && Writing(more[k]) :: k == 0)
            && (forall cell, next | more != [] && IsWrite(more[0], cell, next) ::
                  IsRead(i, cell, next) && Has(b, cell) && !Past(ValueOf(b, cell), next) && Exec(b, i).0 == b)
  {
    if i.Start? {
      PlanIsRanked(b, i.event);
      hide Plan, Past;
    } else {
      hide Plan, ActiveDeliveries, HasPending, Normalised, Clashes;
    }
  }

  /** Any other access moves a status ahead or not at all. */
  lemma ExecOnCell(b: Base, i: Instr, cell: Cell)
    requires Has(b, cell)
    ensures var b' := Exec(b, i).0;
            && Has(b', cell)
            && (MayBecome(ValueOf(b, cell), ValueOf(b', cell)) || IsWrite(i, cell, ValueOf(b', cell)))
            && (forall next | IsWrite(i, cell, next) :: ValueOf(b', cell) == next)
  {
    hide Plan, ActiveDeliveries, HasPending, Normalised, Clashes, CourseRank, OrderRank;
  }

  // ---- Runs -------------------------------------------------------------------------------------------

  function At(b: Base, moves: seq<Move>, k: nat): System
    requires k <= |moves|
  {
    RunSystem(Initial(b), moves[..k])
  }

  function Executed(b: Base, moves: seq<Move>, k: nat): Option<Instr>
    requires k < |moves|
  {
    Access(At(b, moves, k), moves[k])
  }

  lemma AtNext(b: Base, moves: seq<Move>, k: nat)
    requires k < |moves|
    ensures At(b, moves, k + 1) == Next(At(b, moves, k), moves[k])
  {
    assert moves[..k + 1][..k] == moves[..k];
    hide Next;
  }

  lemma {:induction false} HasLasts(b: Base, moves: seq<Move>, cell: Cell, k: nat)
    requires k <= |moves| && Has(b, cell)
    ensures Has(At(b, moves, k).base, cell)
  {
    if k > 0 {
      HasLasts(b, moves, cell, k - 1);
      AtNext(b, moves, k - 1);
      var i := Executed(b, moves, k - 1);
      if i.Some? {
        ExecOnCell(At(b, moves, k - 1).base, i.value, cell);
      }
      hide At, Exec, Has;
    }
  }

  /** What the status is at a moment of the run. */
  function ValueAt(b: Base, moves: seq<Move>, cell: Cell, k: nat): Value
    requires k <= |moves| && Has(b, cell)
  {
    HasLasts(b, moves, cell, k);
    ValueOf(At(b, moves, k).base, cell)
  }

  lemma ValueMoves(b: Base, moves: seq<Move>, cell: Cell, k: nat)
    requires k < |moves| && Has(b, cell)
    ensures var i := Executed(b, moves, k);
            var v, v' := ValueAt(b, moves, cell, k), ValueAt(b, moves, cell, k + 1);
            && (MayBecome(v, v') || (i.Some? && IsWrite(i.value, cell, v')))
            && (forall next | i.Some? && IsWrite(i.value, cell, next) :: v' == next)
  {
    HasLasts(b, moves, cell, k);
    AtNext(b, moves, k);
    var i := Executed(b, moves, k);
    if i.Some? {
      ExecOnCell(At(b, moves, k).base, i.value, cell);
    }
    hide At, Exec, Has, IsWrite;
  }

  /** Only the first access of a thread may be a write. */
  ghost predicate WellPlanned(p: Program) {
    forall k | 0 <= k < |p| :: Ranked(p[k]) && (k > 0 ==> !Writing(p[k]))
  }

  lemma {:induction false} ThreadsAreWellPlanned(b: Base, moves: seq<Move>, k: nat, t: nat)
    requires k <= |moves| && t < |At(b, moves, k).threads|
    ensures WellPlanned(At(b, moves, k).threads[t])
  {
    if k > 0 {
      AtNext(b, moves, k - 1);
      var s, m := At(b, moves, k - 1), moves[k - 1];
      if t < |s.threads| {
        ThreadsAreWellPlanned(b, moves, k - 1, t);
      }
      if Access(s, m).Some? && m.thread == t {
        DecidesWrites(s.base, Access(s, m).value);
      }
      hide At, Exec, Ranked, Writing;
    }
  }

  /** No move of the thread in between. */
  ghost predicate Rests(moves: seq<Move>, t: nat, from: int, to: int)
    requires 0 <= from && to <= |moves|
  {
    forall i | from <= i < to :: moves[i] != Turn(t)
  }

  /** The thread's pending write was decided on at `j`, by a read which found the status not past it. */
  ghost predicate DecidedAt(b: Base, moves: seq<Move>, t: nat, cell: Cell, next: Value, j: nat, k: nat)
    requires j < k <= |moves| && Has(b, cell)
  {
    && moves[j] == Turn(t) && Rests(moves, t, j + 1, k)
    && Executed(b, moves, j).Some? && IsRead(Executed(b, moves, j).value, cell, next)
    && !Past(ValueAt(b, moves, cell, j + 1), next)
  }

  lemma {:induction false} WritesAreDecided(
    b: Base, moves: seq<Move>, k: nat, t: nat, cell: Cell, next: Value) returns (j: nat)
    requires k <= |moves| && Has(b, cell)
    requires t < |At(b, moves, k).threads| && At(b, moves, k).threads[t] != []
    requires IsWrite(At(b, moves, k).threads[t][0], cell, next)
    ensures j < k && DecidedAt(b, moves, t, cell, next, j, k)
  {
    hide DecidedAt, Exec, IsWrite, Has;
    assert At(b, moves, 0) == Initial(b) by { assert moves[..0] == []; }
    if k == 0 {
      assert false;
    } else {
      var s, m := At(b, moves, k - 1), moves[k - 1];
      if Access(s, m).Some? && m.thread == t {
        ThreadsAreWellPlanned(b, moves, k - 1, t);
        AtNext(b, moves, k - 1);
        j := k - 1;
        JustDecided(b, moves, j, t, cell, next);
      } else {
        ThreadRests(b, moves, k - 1, t, cell, next);
        j := WritesAreDecided(b, moves, k - 1, t, cell, next);
        StillDecided(b, moves, t, cell, next, j, k - 1);
      }
    }
  }

  lemma ThreadRests(b: Base, moves: seq<Move>, k: nat, t: nat, cell: Cell, next: Value)
    requires k < |moves| && !(Access(At(b, moves, k), moves[k]).Some? && moves[k].thread == t)
    requires t < |At(b, moves, k + 1).threads| && At(b, moves, k + 1).threads[t] != []
    requires IsWrite(At(b, moves, k + 1).threads[t][0], cell, next)
    ensures moves[k] != Turn(t)
    ensures t < |At(b, moves, k).threads| && At(b, moves, k).threads[t] == At(b, moves, k + 1).threads[t]
  {
    AtNext(b, moves, k);
    hide At, Exec;
  }

  lemma StillDecided(b: Base, moves: seq<Move>, t: nat, cell: Cell, next: Value, j: nat, k: nat)
    requires j < k < |moves| && Has(b, cell) && moves[k] != Turn(t) && DecidedAt(b, moves, t, cell, next, j, k)
    ensures DecidedAt(b, moves, t, cell, next, j, k + 1)
  {
    hide At, Executed, Past, Has, IsRead, ValueAt;
  }

  lemma JustDecided(b: Base, moves: seq<Move>, j: nat, t: nat, cell: Cell, next: Value)
    requires j < |moves| && Has(b, cell) && moves[j] == Turn(t)
    requires t < |At(b, moves, j).threads| && At(b, moves, j).threads[t] != []
              && WellPlanned(At(b, moves, j).threads[t])
    requires t < |At(b, moves, j + 1).threads| && At(b, moves, j + 1).threads[t] != []
    requires IsWrite(At(b, moves, j + 1).threads[t][0], cell, next)
    ensures DecidedAt(b, moves, t, cell, next, j, j + 1)
  {
    AtNext(b, moves, j);
    HasLasts(b, moves, cell, j);
    var s := At(b, moves, j);
    var p := s.threads[t];
    DecidesWrites(s.base, p[0]);
    assert |p| > 1 ==> !Writing(p[1]) && p[1..][0] == p[1];
    hide At, Exec, Ranked, Past, Has;
    if Exec(s.base, p[0]).1 == [] {
      assert false;
    }
  }

  // ---- Going back -------------------------------------------------------------------------------------

  ghost predicate GoesBackAt(b: Base, moves: seq<Move>, cell: Cell, k: nat)
    requires k < |moves| && Has(b, cell)
  {
    !MayBecome(ValueAt(b, moves, cell, k), ValueAt(b, moves, cell, k + 1))
  }

  /**
   At `k` a thread writes what it had decided on at `j`, though in between, at `m`, another thread moved the
   status past it.
   */
  ghost predicate StaleWrite(b: Base, moves: seq<Move>, cell: Cell, next: Value, j: nat, m: nat, k: nat)
    requires Has(b, cell)
  {
    && j < m < k < |moves| && moves[k].Turn? && moves[m] != moves[k]
    && Executed(b, moves, k).Some? && IsWrite(Executed(b, moves, k).value, cell, next)
    && DecidedAt(b, moves, moves[k].thread, cell, next, j, k)
    && !Past(ValueAt(b, moves, cell, m), next) && Past(ValueAt(b, moves, cell, m + 1), next)
  }

  lemma {:induction false} BecomesPast(
    b: Base, moves: seq<Move>, cell: Cell, next: Value, j: nat, k: nat) returns (m: nat)
    requires j < k <= |moves| && Has(b, cell)
    requires !Past(ValueAt(b, moves, cell, j), next) && Past(ValueAt(b, moves, cell, k), next)
    ensures j <= m < k && !Past(ValueAt(b, moves, cell, m), next) && Past(ValueAt(b, moves, cell, m + 1), next)
    decreases k
  {
    hide ValueAt, Past;
    if Past(ValueAt(b, moves, cell, k - 1), next) {
      m := BecomesPast(b, moves, cell, next, j, k - 1);
    } else {
      m := k - 1;
    }
  }

  lemma BackIsWrite(b: Base, moves: seq<Move>, cell: Cell, k: nat)
    requires k < |moves| && Has(b, cell) && GoesBackAt(b, moves, cell, k)
    ensures var v, next := ValueAt(b, moves, cell, k), ValueAt(b, moves, cell, k + 1);
            && Executed(b, moves, k).Some? && IsWrite(Executed(b, moves, k).value, cell, next) && Past(v, next)
  {
    ValueMoves(b, moves, cell, k);
    ThreadsAreWellPlanned(b, moves, k, moves[k].thread);
    assert RankedValue(ValueAt(b, moves, cell, k + 1));
    PastIsBehind(ValueAt(b, moves, cell, k), ValueAt(b, moves, cell, k + 1));
    hide At, Past, MayBecome;
  }

  lemma NotPastWhenDecided(b: Base, moves: seq<Move>, t: nat, cell: Cell, next: Value, j: nat, k: nat)
    requires j < k <= |moves| && Has(b, cell) && DecidedAt(b, moves, t, cell, next, j, k)
    ensures !Past(ValueAt(b, moves, cell, j + 1), next)
    ensures forall m | j < m < k :: moves[m] != Turn(t)
  {
    hide ValueAt, Past, At, Executed, Has, IsRead;
  }

  lemma BackMeansStale(b: Base, moves: seq<Move>, cell: Cell, k: nat)
    requires k < |moves| && Has(b, cell) && GoesBackAt(b, moves, cell, k)
    ensures exists next, j, m :: StaleWrite(b, moves, cell, next, j, m, k)
  {
    BackIsWrite(b, moves, cell, k);
    hide GoesBackAt, ValueAt, Past, RunSystem, Next, Has, IsWrite, IsRead, DecidedAt;
    var t, next := moves[k].thread, ValueAt(b, moves, cell, k + 1);
    var j := WritesAreDecided(b, moves, k, t, cell, next);
    NotPastWhenDecided(b, moves, t, cell, next, j, k);
    var m := BecomesPast(b, moves, cell, next, j + 1, k);
    hide Access, At;
    assert StaleWrite(b, moves, cell, next, j, m, k);
  }

  lemma {:induction false} PastUntil(b: Base, moves: seq<Move>, cell: Cell, next: Value, m: nat, k: nat)
    requires m <= k <= |moves| && Has(b, cell) && RankedValue(next) && Past(ValueAt(b, moves, cell, m), next)
    requires forall i | m <= i < k :: !GoesBackAt(b, moves, cell, i)
    ensures Past(ValueAt(b, moves, cell, k), next)
    decreases k
  {
    if m < k {
      PastUntil(b, moves, cell, next, m, k - 1);
      assert !GoesBackAt(b, moves, cell, k - 1);
      PastLasts(ValueAt(b, moves, cell, k - 1), ValueAt(b, moves, cell, k), next);
    }
  }

  lemma StaleFacts(b: Base, moves: seq<Move>, cell: Cell, next: Value, j: nat, m: nat, k: nat)
    requires Has(b, cell) && StaleWrite(b, moves, cell, next, j, m, k)
    ensures RankedValue(next) && ValueAt(b, moves, cell, k + 1) == next && Past(ValueAt(b, moves, cell, m + 1), next)
    ensures ValueAt(b, moves, cell, k).CourseValue? == next.CourseValue?
  {
    ThreadsAreWellPlanned(b, moves, k, moves[k].thread);
    assert RankedValue(next);
    ValueMoves(b, moves, cell, k);
    hide Past, MayBecome, At, DecidedAt;
  }

  lemma StaleMeansBack(b: Base, moves: seq<Move>, cell: Cell, next: Value, j: nat, m: nat, k: nat)
    requires Has(b, cell) && StaleWrite(b, moves, cell, next, j, m, k)
    ensures exists i :: 0 <= i < |moves| && GoesBackAt(b, moves, cell, i)
  {
    StaleFacts(b, moves, cell, next, j, m, k);
    assert m < k < |moves|;
    hide StaleWrite, ValueAt, Past, MayBecome, At, Has;
    if forall i | m < i < k :: !GoesBackAt(b, moves, cell, i) {
      PastUntil(b, moves, cell, next, m + 1, k);
      PastIsBehind(ValueAt(b, moves, cell, k), next);
      assert GoesBackAt(b, moves, cell, k);
    }
  }

  /**
   Main result: over any interleaved run, the status of a course or of an order never goes back if and only if
   no write lands stale.
   */
  lemma NeverBackIff(b: Base, moves: seq<Move>, cell: Cell)
    requires Has(b, cell)
    ensures (forall k | 0 <= k < |moves| :: !GoesBackAt(b, moves, cell, k))
       <==> (forall next, j, m, k :: !StaleWrite(b, moves, cell, next, j, m, k))
  {
    hide GoesBackAt, StaleWrite;
    if k: nat :| k < |moves| && GoesBackAt(b, moves, cell, k) {
      BackMeansStale(b, moves, cell, k);
    }
    if next, j, m, k :| StaleWrite(b, moves, cell, next, j, m, k) {
      StaleMeansBack(b, moves, cell, next, j, m, k);
    }
  }

  /** An order without delivery, paid and not yet out: its late `in_transit` undoes COMPLETED. */
  lemma LateTransit(b: Base, r: string) returns (moves: seq<Move>)
    requires HasOrder(b, r) && r !in b.deliveries && b.orders[r].paid
    requires !TerminalOrder(b.orders[r].status) && OrderRank(b.orders[r].status) < OrderRank(PickedUp)
    ensures var s := RunSystem(Initial(b), moves);
            && s.base.orders == b.orders[r := b.orders[r].(status := Completed)]
            && |s.threads| == 2 && s.threads[0] == [WriteOrder(r, PickedUp)]
  {
    var s0 := Initial(b);
    var done := HandedOver(r, "", Declaration([], None, None));
    moves := PendingTransit(b, r);
    moves := ThenArrive(s0, moves, done);
    DrainIsHandle(b, done);
    assert Handle(b, done).orders == b.orders[r := b.orders[r].(status := Completed)];
    hide Handle, RunSystem;
    var s := RunSystem(s0, moves);
    var turns := ThreadDrains(s, 1);
    RunConcat(s0, moves, turns);
    moves := moves + turns;
  }

  /** A read `in_transit` about to write. */
  lemma PendingTransit(b: Base, r: string) returns (moves: seq<Move>)
    requires HasOrder(b, r) && r !in b.deliveries
    requires !TerminalOrder(b.orders[r].status) && OrderRank(b.orders[r].status) < OrderRank(PickedUp)
    ensures var s := RunSystem(Initial(b), moves); s.base == b && s.threads == [[WriteOrder(r, PickedUp)]]
  {
    var s0, late := Initial(b), InTransit(r, "");
    var read, write := ReadOrder(r, PickedUp), WriteOrder(r, PickedUp);
    TransitAccesses(b, r);
    hide Exec, HasOrder, OrderRank, ClosedBy;
    assert RunSystem(s0, []) == s0;
    hide RunSystem;
    moves := ThenArrive(s0, [], late);
    assert [Start(late)] + [] == [Start(late)];
    OneThread(s0, moves, Start(late));
    moves := ThenTurn(s0, moves, 0, Start(late), []);
    OneThread(s0, moves, read);
    moves := ThenTurn(s0, moves, 0, read, []);
    assert [write] + [] == [write];
  }

  lemma OneThread(s: System, moves: seq<Move>, i: Instr)
    requires |RunSystem(s, moves).threads| == 1 && RunSystem(s, moves).threads[0] == [i] + []
    ensures RunSystem(s, moves).threads == [[i] + []] == [[i]]
  {
    hide RunSystem;
    assert [i] + [] == [i];
  }

  lemma TransitAccesses(b: Base, r: string)
    requires HasOrder(b, r) && r !in b.deliveries
    requires !TerminalOrder(b.orders[r].status) && OrderRank(b.orders[r].status) < OrderRank(PickedUp)
    ensures Exec(b, Start(InTransit(r, ""))) == (b, [ReadOrder(r, PickedUp)])
    ensures Exec(b, ReadOrder(r, PickedUp)) == (b, [WriteOrder(r, PickedUp)])
  {
    assert [] + [ReadOrder(r, PickedUp)] == [ReadOrder(r, PickedUp)];
    assert Plan(b, InTransit(r, "")) == [ReadOrder(r, PickedUp)];
    hide Plan;
  }

  lemma CompletedOrderCanGoBack(b: Base, r: string) returns (moves: seq<Move>, k: nat)
    requires HasOrder(b, r) && r !in b.deliveries && b.orders[r].paid
    requires !TerminalOrder(b.orders[r].status) && OrderRank(b.orders[r].status) < OrderRank(PickedUp)
    ensures k < |moves| && GoesBackAt(b, moves, OfOrder(r), k)
    ensures ValueAt(b, moves, OfOrder(r), k) == OrderValue(Completed)
    ensures ValueAt(b, moves, OfOrder(r), k + 1) == OrderValue(PickedUp)
  {
    var before := LateTransit(b, r);
    k := |before|;
    moves := before + [Turn(0)];
    assert moves[..k] == before && moves[..k + 1] == moves;
    var s := RunSystem(Initial(b), before);
    assert [WriteOrder(r, PickedUp)] == [WriteOrder(r, PickedUp)] + [];
    assert RunSystem(Initial(b), moves) == Next(s, Turn(0));
    hide RunSystem;
    HasLasts(b, moves, OfOrder(r), k);
  }

  // ---- A completed course reopens ---------------------------------------------------------------------

  lemma PickupAccesses(b: Base, r: string)
    requires HasDelivery(b, r) && b.deliveries[r].course in b.courses
    requires 0 <= CourseRank(b.courses[b.deliveries[r].course]) < CourseRank(AtRestaurant)
    ensures var c := b.deliveries[r].course;
            && Exec(b, Start(PickupStarted(r, ""))) == (b, [ReadCourse(c, AtRestaurant)])
            && Exec(b, ReadCourse(c, AtRestaurant)) == (b, [WriteCourse(c, AtRestaurant)])
  {
  }

  /** A read `pickup_started` about to write. */
  lemma PendingPickup(b: Base, r: string) returns (moves: seq<Move>)
    requires HasDelivery(b, r) && b.deliveries[r].course in b.courses
    requires 0 <= CourseRank(b.courses[b.deliveries[r].course]) < CourseRank(AtRestaurant)
    ensures var s := RunSystem(Initial(b), moves);
            s.base == b && s.threads == [[WriteCourse(b.deliveries[r].course, AtRestaurant)]]
  {
    var s0, late, c := Initial(b), PickupStarted(r, ""), b.deliveries[r].course;
    PickupAccesses(b, r);
    hide Exec, HasOrder, CourseRank, ClosedBy;
    assert RunSystem(s0, []) == s0;
    hide RunSystem;
    moves := ThenArrive(s0, [], late);
    assert [Start(late)] + [] == [Start(late)];
    OneThread(s0, moves, Start(late));
    moves := ThenTurn(s0, moves, 0, Start(late), []);
    OneThread(s0, moves, ReadCourse(c, AtRestaurant));
    moves := ThenTurn(s0, moves, 0, ReadCourse(c, AtRestaurant), []);
    assert [WriteCourse(c, AtRestaurant)] + [] == [WriteCourse(c, AtRestaurant)];
  }

  /** The last active delivery of a course: its handover completes the course. */
  predicate LastOfItsCourse(b: Base, r: string) {
    && HasDelivery(b, r) && DeliveryRank(b.deliveries[r].statut) in {0, 1, 2}
    && b.deliveries[r].course in b.courses
    && 0 <= CourseRank(b.courses[b.deliveries[r].course]) < CourseRank(AtRestaurant)
    && ActiveDeliveries(b.deliveries, b.deliveries[r].course) == {r}
  }

  lemma HandoverCompletes(b: Base, r: string, d: Declaration)
    requires LastOfItsCourse(b, r)
    ensures Handle(b, HandedOver(r, "", d)).courses == b.courses[b.deliveries[r].course := Finished]
  {
    var c, b1 := b.deliveries[r].course, AdvanceDelivery(b, r, Delivered);
    forall x ensures x !in ActiveDeliveries(b1.deliveries, c) {
      assert x in ActiveDeliveries(b.deliveries, c) ==> x == r;
    }
    assert ActiveDeliveries(b1.deliveries, c) == {};
    SettlingMovesOneOrder(CompleteIfDone(b1, c), r, d);
    hide SettleOrder, ActiveDeliveries;
  }

  lemma LatePickup(b: Base, r: string, d: Declaration) returns (moves: seq<Move>)
    requires LastOfItsCourse(b, r)
    ensures var s, c := RunSystem(Initial(b), moves), b.deliveries[r].course;
            && s.base.courses == b.courses[c := Finished]
            && |s.threads| == 2 && s.threads[0] == [WriteCourse(c, AtRestaurant)]
  {
    var s0, done := Initial(b), HandedOver(r, "", d);
    HandoverCompletes(b, r, d);
    moves := PendingPickup(b, r);
    moves := ThenArrive(s0, moves, done);
    DrainIsHandle(b, done);
    hide Handle, RunSystem, LastOfItsCourse;
    var s := RunSystem(s0, moves);
    var turns := ThreadDrains(s, 1);
    RunConcat(s0, moves, turns);
    moves := moves + turns;
  }

  /**
   The last active delivery of a course is handed over while a `pickup_started` is about to write: COMPLETED is
   undone.
   */
  lemma CompletedCourseCanReopen(b: Base, r: string, d: Declaration) returns (moves: seq<Move>, k: nat)
    requires LastOfItsCourse(b, r)
    ensures var cell := OfCourse(b.deliveries[r].course);
            && k < |moves| && GoesBackAt(b, moves, cell, k)
            && ValueAt(b, moves, cell, k) == CourseValue(Finished)
            && ValueAt(b, moves, cell, k + 1) == CourseValue(AtRestaurant)
  {
    var c := b.deliveries[r].course;
    var before := LatePickup(b, r, d);
    k := |before|;
    moves := before + [Turn(0)];
    assert moves[..k] == before && moves[..k + 1] == moves;
    assert [WriteCourse(c, AtRestaurant)] == [WriteCourse(c, AtRestaurant)] + [];
    assert RunSystem(Initial(b), moves) == Next(RunSystem(Initial(b), before), Turn(0));
    hide RunSystem;
    HasLasts(b, moves, OfCourse(c), k);
  }
}
