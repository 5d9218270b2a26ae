/** Any number of interleaved Turbo handlers: what holds in every reachable state. */
module TurboSystem {
  import opened Wrappers
  import opened Encaissement
  import opened TurboRows
  import opened TurboInterleaving

  /** `closed` remembers the courses which Turbo code moved to COMPLETED or CANCELLED. */
  datatype System = System(base: Base, threads: seq<Program>, closed: set<string>)

  datatype Move = Arrive(event: Event) | Turn(thread: nat)

  function Initial(b: Base): System {
    System(b, [], {})
  }

  function ClosedBy(b: Base, i: Instr): set<string> {
    match i
    case WriteCourse(c, next) => if next.Finished? && c in b.courses then {c} else {}
    case ClaimCourseAborted(c) => if c in b.courses && !TerminalCourse(b.courses[c]) then {c} else {}
    case _ => {}
  }

  function Next(s: System, m: Move): System {
    match m
    case Arrive(e) => s.(threads := s.threads + [[Start(e)]])
    case Turn(t) =>
      if t < |s.threads| && s.threads[t] != [] then
        var i := s.threads[t][0];
        var (b', more) := Exec(s.base, i);
        System(b', s.threads[t := more + s.threads[t][1..]], s.closed + ClosedBy(s.base, i))
      else s
  }

  /** The access which a move executes, if any. */
  function Access(s: System, m: Move): Option<Instr> {
    if m.Turn? && m.thread < |s.threads| && s.threads[m.thread] != [] then Some(s.threads[m.thread][0]) else None
  }

  function RunSystem(s: System, moves: seq<Move>): System {
    if moves == [] then s else Next(RunSystem(s, moves[..|moves| - 1]), moves[|moves| - 1])
  }

  // ---- Terminal deliveries stay terminal -------------------------------------------------------

  ghost predicate Settled(b: Base, b': Base) {
    && b'.deliveries.Keys == b.deliveries.Keys
    && forall r | r in b.deliveries ::
         && b'.deliveries[r].course == b.deliveries[r].course
         && (TerminalDelivery(b.deliveries[r].statut) ==> TerminalDelivery(b'.deliveries[r].statut))
  }

  ghost predicate NoneActive(b: Base, course: string) {
    forall r | r in b.deliveries && b.deliveries[r].course == course :: TerminalDelivery(b.deliveries[r].statut)
  }

  /** An access which will close a course may only be pending when none of its deliveries is active. */
  ghost predicate SafeInstr(b: Base, i: Instr) {
    match i
    case ReadCourse(c, next) => next.Finished? ==> NoneActive(b, c)
    case WriteCourse(c, next) => !next.Aborted? && (next.Finished? ==> NoneActive(b, c))
    case ClaimCourseAborted(c) => NoneActive(b, c)
    case _ => true
  }

  ghost predicate SafeProgram(b: Base, p: Program) {
    forall k | 0 <= k < |p| :: SafeInstr(b, p[k])
  }

  ghost predicate Safe(s: System) {
    && (forall t | 0 <= t < |s.threads| :: SafeProgram(s.base, s.threads[t]))
    && (forall c | c in s.closed :: NoneActive(s.base, c))
  }

  lemma ExecSettles(b: Base, i: Instr)
    requires !i.MoveDelivery? || i.statut.InRoute? || i.statut.Delivered?
    ensures Settled(b, Exec(b, i).0)
  {
    hide Plan, HasPending, Clashes, Normalised, OrderAfter, CourseAfter;
  }

  lemma PlanIsSafe(b: Base, e: Event)
    ensures SafeProgram(b, Plan(b, e)) && OnlyMovesForward(Plan(b, e))
  {
    hide Stale, Validate, CarriesPayment, CourseNamed, GroupNamed, NoneActive;
  }

  /** Turbo only moves deliveries to IN_ROUTE or DELIVERED by conditional update. */
  predicate OnlyMovesForward(p: Program) {
    forall k | 0 <= k < |p| :: p[k].MoveDelivery? ==> p[k].statut.InRoute? || p[k].statut.Delivered?
  }

  lemma ExecIsSafe(b: Base, i: Instr)
    requires SafeInstr(b, i) && OnlyMovesForward([i])
    ensures var (b', more) := Exec(b, i);
            && Settled(b, b') && SafeProgram(b', more) && OnlyMovesForward(more)
            && (forall c | c in ClosedBy(b, i) :: NoneActive(b', c))
  {
    assert [i][0] == i;
    ExecSettles(b, i);
    var (b', more) := Exec(b, i);
    match i {
      case Start(e) => PlanIsSafe(b, e);
      case CountThenComplete(c) => NoActiveMeansDone(b, c);
      case CountThenCancel(c) => NoActiveMeansDone(b, c);
      case WriteCourse(c, next) =>
        if next.Finished? { SettledKeepsDone(b, b', c); }
      case ClaimCourseAborted(c) => SettledKeepsDone(b, b', c);
      case _ => hide *;
    }
  }

  lemma NoActiveMeansDone(b: Base, c: string)
    ensures ActiveDeliveries(b.deliveries, c) == {} ==> NoneActive(b, c)
  {
    if ActiveDeliveries(b.deliveries, c) == {} {
      forall r | r in b.deliveries && b.deliveries[r].course == c ensures TerminalDelivery(b.deliveries[r].statut) {
        assert r !in ActiveDeliveries(b.deliveries, c);
      }
    }
  }

  lemma SettledKeepsDone(b: Base, b': Base, c: string)
    requires Settled(b, b')
    ensures NoneActive(b, c) ==> NoneActive(b', c)
  {
  }

  ghost predicate Forward(s: System) {
    forall t | 0 <= t < |s.threads| :: OnlyMovesForward(s.threads[t])
  }

  lemma SettledKeepsProgram(b: Base, b': Base, p: Program)
    requires Settled(b, b') && SafeProgram(b, p)
    ensures SafeProgram(b', p)
  {
    forall k | 0 <= k < |p| ensures SafeInstr(b', p[k]) {
      assert SafeInstr(b, p[k]);
      match p[k] {
        case ReadCourse(c, _) => SettledKeepsDone(b, b', c);
        case WriteCourse(c, _) => SettledKeepsDone(b, b', c);
        case ClaimCourseAborted(c) => SettledKeepsDone(b, b', c);
        case _ =>
      }
    }
  }

  lemma NextIsSafe(s: System, m: Move)
    requires Safe(s) && Forward(s)
    ensures Safe(Next(s, m)) && Forward(Next(s, m)) && Settled(s.base, Next(s, m).base)
  {
    hide Exec, ClosedBy, NoneActive;
    if m.Turn? && m.thread < |s.threads| && s.threads[m.thread] != [] {
      var p := s.threads[m.thread];
      var (b', more) := Exec(s.base, p[0]);
      assert OnlyMovesForward([p[0]]);
      ExecIsSafe(s.base, p[0]);
      SettledKeepsProgram(s.base, b', p);
      forall t | 0 <= t < |s.threads| ensures SafeProgram(b', s.threads[t]) {
        SettledKeepsProgram(s.base, b', s.threads[t]);
      }
      forall c | c in s.closed ensures NoneActive(b', c) {
        SettledKeepsDone(s.base, b', c);
      }
      hide Settled, SafeInstr;
    }
  }

  lemma {:induction false} RunIsSafe(s: System, moves: seq<Move>)
    requires Safe(s) && Forward(s)
    ensures Safe(RunSystem(s, moves)) && Forward(RunSystem(s, moves))
    ensures Settled(s.base, RunSystem(s, moves).base)
  {
    if moves != [] {
      var before := RunSystem(s, moves[..|moves| - 1]);
      RunIsSafe(s, moves[..|moves| - 1]);
      NextIsSafe(before, moves[|moves| - 1]);
      hide Next, Safe, Forward;
    }
  }

  /** The courses whose status is COMPLETED or CANCELLED and was not at the start. */
  ghost predicate ClosedDuring(b: Base, s: System, c: string) {
    && c in b.courses && c in s.base.courses
    && (s.base.courses[c].Finished? || s.base.courses[c].Aborted?)
    && s.base.courses[c] != b.courses[c]
  }

  lemma {:induction false} ClosuresAreRemembered(b: Base, moves: seq<Move>, c: string)
    ensures ClosedDuring(b, RunSystem(Initial(b), moves), c) ==> c in RunSystem(Initial(b), moves).closed
  {
    if moves != [] {
      var m := moves[|moves| - 1];
      var s := RunSystem(Initial(b), moves[..|moves| - 1]);
      ClosuresAreRemembered(b, moves[..|moves| - 1], c);
      RunIsSafe(Initial(b), moves[..|moves| - 1]);
      if m.Turn? && m.thread < |s.threads| && s.threads[m.thread] != [] {
        var i := s.threads[m.thread][0];
        assert SafeInstr(s.base, i);
        ExecClosesOpenly(s.base, i, c);
        hide Exec, ClosedBy, Safe, SafeInstr, NoneActive;
      }
    }
  }

  lemma ExecClosesOpenly(b: Base, i: Instr, c: string)
    requires SafeInstr(b, i)
    ensures var b' := Exec(b, i).0;
            && b'.courses.Keys == b.courses.Keys
            && (c in b.courses && b'.courses[c] != b.courses[c] && (b'.courses[c].Finished? || b'.courses[c].Aborted?)
                ==> c in ClosedBy(b, i))
  {
    hide Plan, HasPending, Clashes, Normalised, OrderAfter, CourseAfter, NoneActive;
  }

  /**
   Main result: however handlers interleave, a course which Turbo code moved to COMPLETED or CANCELLED
   has only DELIVERED, FAILED or CANCELLED deliveries, then and ever after.
   */
  lemma GroupCompletion(b: Base, moves: seq<Move>, later: seq<Move>, c: string)
    requires var s := RunSystem(Initial(b), moves); c in s.closed || ClosedDuring(b, s, c)
    ensures NoneActive(RunSystem(Initial(b), moves).base, c)
    ensures NoneActive(RunSystem(RunSystem(Initial(b), moves), later).base, c)
  {
    var s := RunSystem(Initial(b), moves);
    hide RunSystem, ClosedDuring;
    ClosuresAreRemembered(b, moves, c);
    RunIsSafe(Initial(b), moves);
    RunIsSafe(s, later);
    SettledKeepsDone(s.base, RunSystem(s, later).base, c);
  }

  /** No delivery leaves the terminal statuses, however handlers interleave. */
  lemma TerminalSetIsClosed(b: Base, moves: seq<Move>, later: seq<Move>, r: string)
    requires r in RunSystem(Initial(b), moves).base.deliveries
    requires TerminalDelivery(RunSystem(Initial(b), moves).base.deliveries[r].statut)
    ensures var b' := RunSystem(RunSystem(Initial(b), moves), later).base;
            r in b'.deliveries && TerminalDelivery(b'.deliveries[r].statut)
  {
    hide RunSystem;
    RunIsSafe(Initial(b), moves);
    RunIsSafe(RunSystem(Initial(b), moves), later);
  }

  // ---- One departure message, one awaiting payment per source ------------------------------------

  /** No delivery appears twice in the log, and a logged delivery has left PENDING for good. */
  ghost predicate DepartsOnce(b: Base) {
    && (forall i, j | 0 <= i < j < |b.departures| :: b.departures[i] != b.departures[j])
    && (forall i | 0 <= i < |b.departures| :: Departed(b.deliveries, b.departures[i]))
  }

  ghost predicate Departed(deliveries: map<string, Delivery>, r: string) {
    r in deliveries && !deliveries[r].statut.Waiting?
  }

  ghost predicate OnePerSource(payments: seq<Payment>) {
    forall i, j | 0 <= i < j < |payments| ::
      !(&& payments[i].status == payments[j].status == AwaitingConfirmation
        && payments[i].order == payments[j].order
        && payments[i].line.means.source == payments[j].line.means.source)
  }

  lemma ExecDepartsOnce(b: Base, i: Instr)
    requires DepartsOnce(b)
    ensures DepartsOnce(Exec(b, i).0)
  {
    ExecLogs(b, i);
    forall k | 0 <= k < |b.departures| ensures Departed(Exec(b, i).0.deliveries, b.departures[k]) {
      ExecKeepsDeparted(b, i, b.departures[k]);
    }
    hide Exec, Departed;
  }

  lemma ExecLogs(b: Base, i: Instr)
    ensures var b' := Exec(b, i).0;
            b'.departures == b.departures
            || exists r :: b'.departures == b.departures + [r] && !Departed(b.deliveries, r)
                && Departed(b'.deliveries, r)
  {
    hide Plan, HasPending, Clashes, Normalised, OrderAfter, CourseAfter, ActiveDeliveries;
    if i.MoveDelivery? && i.statut.InRoute? {
      var b' := AdvanceDelivery(b, i.ref, i.statut);
      assert b'.departures == b.departures || b'.departures == b.departures + [i.ref];
    }
  }

  lemma ExecKeepsDeparted(b: Base, i: Instr, r: string)
    requires Departed(b.deliveries, r)
    ensures Departed(Exec(b, i).0.deliveries, r)
  {
    hide Plan, HasPending, Clashes, Normalised, OrderAfter, CourseAfter;
  }

  lemma ExecKeepsIndex(b: Base, i: Instr)
    requires OnePerSource(b.payments)
    ensures OnePerSource(Exec(b, i).0.payments)
  {
    hide Plan, HasPending, Normalised, OrderAfter, CourseAfter, ActiveDeliveries;
    match i {
      case InsertLines(r, lines) =>
        if !Clashes(b.payments, r, lines) {
          IndexAdmits(b.payments, r, lines);
        }
      case _ =>
    }
  }

  lemma IndexAdmits(payments: seq<Payment>, r: string, lines: seq<Line>)
    requires OnePerSource(payments) && !Clashes(payments, r, lines)
    ensures OnePerSource(payments + PaymentRows(r, lines))
  {
    var all := payments + PaymentRows(r, lines);
    forall i, j | 0 <= i < j < |all|
      ensures !(all[i].status == all[j].status == AwaitingConfirmation && all[i].order == all[j].order
                && all[i].line.means.source == all[j].line.means.source)
    {
      if j >= |payments| {
        assert all[j].line == lines[j - |payments|];
        if i < |payments| {
          assert payments[i] in payments;
        } else {
          assert all[i].line == lines[i - |payments|];
        }
      }
    }
  }

  /** Two backends or not: one departure message per delivery, one awaiting payment per order and source. */
  lemma {:induction false} MessagesAndPaymentsAreUnique(b: Base, moves: seq<Move>)
    requires b.departures == [] && OnePerSource(b.payments)
    ensures DepartsOnce(RunSystem(Initial(b), moves).base)
    ensures OnePerSource(RunSystem(Initial(b), moves).base.payments)
  {
    if moves != [] {
      var m := moves[|moves| - 1];
      var s := RunSystem(Initial(b), moves[..|moves| - 1]);
      MessagesAndPaymentsAreUnique(b, moves[..|moves| - 1]);
      hide DepartsOnce, OnePerSource, Exec;
      if m.Turn? && m.thread < |s.threads| && s.threads[m.thread] != [] {
        ExecDepartsOnce(s.base, s.threads[m.thread][0]);
        ExecKeepsIndex(s.base, s.threads[m.thread][0]);
      }
    }
  }

  // ---- Serial runs are interleavings ---------------------------------------------------------------

  lemma ThreadDrains(s: System, t: nat) returns (moves: seq<Move>)
    requires t < |s.threads|
    ensures RunSystem(s, moves).base == Drain(s.base, s.threads[t])
    ensures RunSystem(s, moves).threads == s.threads[t := []]
  {
    assert s.threads[t] == s.threads[t] + [];
    moves := PrefixDrains(s, t, s.threads[t], []);
  }

  /** A thread may also run the first part of its program alone. */
  lemma {:induction false} PrefixDrains(s: System, t: nat, p: Program, q: Program) returns (moves: seq<Move>)
    requires t < |s.threads| && s.threads[t] == p + q
    ensures RunSystem(s, moves).base == Drain(s.base, p)
    ensures RunSystem(s, moves).threads == s.threads[t := q]
    decreases CostOf(p)
  {
    if p == [] {
      moves := [];
      assert p + q == q;
    } else {
      var (b', more) := Exec(s.base, p[0]);
      ExecShrinks(s.base, p[0]);
      CostOfConcat(more, p[1..]);
      hide Exec;
      assert more + (p + q)[1..] == more + p[1..] + q;
      var rest := PrefixDrains(Next(s, Turn(t)), t, more + p[1..], q);
      moves := [Turn(t)] + rest;
      RunConcat(s, [Turn(t)], rest);
      assert RunSystem(s, [Turn(t)]) == Next(s, Turn(t)) by { assert [Turn(t)][..0] == []; }
    }
  }

  /** One more access by a thread. */
  lemma ThenTurn(s: System, moves: seq<Move>, t: nat, i: Instr, rest: Program) returns (longer: seq<Move>)
    requires t < |RunSystem(s, moves).threads| && RunSystem(s, moves).threads[t] == [i] + rest
    ensures longer == moves + [Turn(t)]
    ensures var before, after := RunSystem(s, moves), RunSystem(s, longer);
            && after.base == Exec(before.base, i).0
            && after.threads == before.threads[t := Exec(before.base, i).1 + rest]
  {
    longer := moves + [Turn(t)];
    assert longer[..|moves|] == moves;
    assert ([i] + rest)[1..] == rest;
    hide Exec, ClosedBy;
  }

  lemma ThenArrive(s: System, moves: seq<Move>, e: Event) returns (longer: seq<Move>)
    ensures longer == moves + [Arrive(e)]
    ensures var before, after := RunSystem(s, moves), RunSystem(s, longer);
            after.base == before.base && after.threads == before.threads + [[Start(e)]]
  {
    longer := moves + [Arrive(e)];
    assert longer[..|moves|] == moves;
  }

  lemma {:induction false} RunConcat(s: System, p: seq<Move>, q: seq<Move>)
    ensures RunSystem(s, p + q) == RunSystem(RunSystem(s, p), q)
    decreases |q|
  {
    hide Next;
    if q == [] {
      assert p + q == p;
    } else {
      RunConcat(s, p, q[..|q| - 1]);
      assert (p + q)[..|p + q| - 1] == p + q[..|q| - 1];
    }
  }

  /** Every serial run of handlers is one of the interleavings, so the results above cover it. */
  lemma {:induction false} SerialRunIsAnInterleaving(b: Base, es: seq<Event>) returns (moves: seq<Move>)
    ensures RunSystem(Initial(b), moves).base == Run(b, es)
  {
    if es == [] {
      moves := [];
    } else {
      var e := es[|es| - 1];
      var before := SerialRunIsAnInterleaving(b, es[..|es| - 1]);
      hide Handle, Exec;
      var s := RunSystem(Initial(b), before);
      var arrived := Next(s, Arrive(e));
      var turns := ThreadDrains(arrived, |s.threads|);
      DrainIsHandle(s.base, e);
      moves := before + [Arrive(e)] + turns;
      RunConcat(Initial(b), before + [Arrive(e)], turns);
      RunConcat(Initial(b), before, [Arrive(e)]);
      assert RunSystem(s, [Arrive(e)]) == arrived by { assert [Arrive(e)][..0] == []; }
    }
  }
}
