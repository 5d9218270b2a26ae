/**
 Interleaved payment declarations: a handler checks that nothing awaits confirmation, then inserts, in two
 accesses. Which of the insertions decided on enter, and when they all come from one declaration.
 */
module TurboDeclarations {
  import opened Wrappers
  import opened Encaissement
  import opened TurboRows
  import opened TurboPayments
  import opened TurboInterleaving
  import opened TurboSystem

  predicate ShareSource(a: seq<Line>, b: seq<Line>) {
    exists i, j :: 0 <= i < |a| && 0 <= j < |b| && a[i].means.source == b[j].means.source
  }

  // ---- The index against whole declarations -----------------------------------------------------------

  lemma {:induction false} PendingLineIsRow(payments: seq<Payment>, r: string, x: Line)
    ensures x in PendingLines(payments, r) <==> Payment(r, x, AwaitingConfirmation) in payments
  {
    if payments != [] {
      var init, last := payments[..|payments| - 1], payments[|payments| - 1];
      PendingLineIsRow(init, r, x);
      assert payments == init + [last];
    }
  }

  /** The index refuses exactly what shares a source with the awaiting lines. */
  lemma ClashesIff(payments: seq<Payment>, r: string, lines: seq<Line>)
    requires DistinctSources(lines)
    ensures Clashes(payments, r, lines) <==> ShareSource(PendingLines(payments, r), lines)
  {
    var pending := PendingLines(payments, r);
    hide PendingLines;
    if i, j :| 0 <= i < |pending| && 0 <= j < |lines| && pending[i].means.source == lines[j].means.source {
      PendingLineIsRow(payments, r, pending[i]);
      assert pending[i] in pending;
      assert Payment(r, pending[i], AwaitingConfirmation) in payments;
    }
    if p, j :| p in payments && 0 <= j < |lines| && p.order == r && p.status == AwaitingConfirmation
               && p.line.means.source == lines[j].means.source {
      PendingLineIsRow(payments, r, p.line);
      assert p == Payment(r, p.line, AwaitingConfirmation);
      var i :| 0 <= i < |pending| && pending[i] == p.line;
    }
  }

  lemma InsertionOnLines(b: Base, r: string, lines: seq<Line>, other: string)
    requires DistinctSources(lines)
    ensures var pending := PendingLines(b.payments, other);
            PendingLines(InsertPayments(b, r, lines).payments, other)
            == if other == r && !ShareSource(pending, lines) then pending + lines else pending
  {
    ClashesIff(b.payments, r, lines);
    PendingLinesOfRows(b.payments, r, lines, other);
    hide PendingLines, PaymentRows, Clashes, ShareSource;
    assert PendingLines(b.payments, other) + [] == PendingLines(b.payments, other);
  }

  /**
   Main result: of two declarations that both found nothing awaiting, the second is refused iff they share a
   source.
   */
  lemma SecondDeclarationRefusedIff(b: Base, r: string, first: seq<Line>, second: seq<Line>)
    requires !HasPending(b.payments, r) && second != [] && DistinctSources(first) && DistinctSources(second)
    ensures var once := InsertPayments(b, r, first);
            InsertPayments(once, r, second).payments == once.payments <==> ShareSource(first, second)
  {
    var once := InsertPayments(b, r, first);
    PendingLinesEmpty(b.payments, r);
    InsertionOnLines(b, r, first, r);
    assert [] + first == first;
    ClashesIff(once.payments, r, second);
    hide InsertPayments, PendingLines, Clashes, ShareSource;
    NothingShared(first);
    if !ShareSource(first, second) {
      InsertionAdds(once, r, second);
    } else {
      InsertionRefused(once, r, second);
    }
  }

  lemma NothingShared(lines: seq<Line>)
    ensures !ShareSource([], lines)
  {
  }

  lemma InsertionAdds(b: Base, r: string, lines: seq<Line>)
    requires lines != [] && !Clashes(b.payments, r, lines)
    ensures InsertPayments(b, r, lines).payments != b.payments
  {
    hide Clashes;
    assert |InsertPayments(b, r, lines).payments| == |b.payments| + |lines|;
  }

  lemma InsertionRefused(b: Base, r: string, lines: seq<Line>)
    requires Clashes(b.payments, r, lines)
    ensures InsertPayments(b, r, lines).payments == b.payments
  {
    hide Clashes;
  }

  // ---- Runs -------------------------------------------------------------------------------------------

  /** What handlers try to insert for an order over a run, in the order in which they do. */
  function Tries(b: Base, moves: seq<Move>, r: string): seq<seq<Line>> {
    if moves == [] then []
    else
      var before := moves[..|moves| - 1];
      Tries(b, before, r) + TriedBy(Access(RunSystem(Initial(b), before), moves[|moves| - 1]), r)
  }

  function TriedBy(i: Option<Instr>, r: string): seq<seq<Line>> {
    if i.Some? && i.value.InsertLines? && i.value.ref == r then [i.value.lines] else []
  }

  /** What enters of a sequence of tries: each one that shares no source with what entered before. */
  function Entered(tries: seq<seq<Line>>): seq<Line> {
    if tries == [] then []
    else
      var before, last := Entered(tries[..|tries| - 1]), tries[|tries| - 1];
      if ShareSource(before, last) then before else before + last
  }

  /** A declaration about the order which handlers may book, among the events that arrived. */
  ghost predicate Booking(b: Base, moves: seq<Move>, r: string, d: Declaration) {
    && r in b.orders && !b.orders[r].paid
    && exists e :: Arrive(e) in moves && DeclaresFor(e, r) && e.declaration == d
  }

  /** Every access on the way to an insertion stems from an event that arrived. */
  ghost predicate Stems(b: Base, moves: seq<Move>, i: Instr) {
    match i
    case Start(e) => Arrive(e) in moves
    case ReadForSettling(r, d) => exists e :: Arrive(e) in moves && e.HandedOver? && e.numero == r && e.declaration == d
    case CheckPending(r, amount, d) => Booking(b, moves, r, d) && amount == b.orders[r].amount
    case InsertLines(r, lines) => exists d :: Booking(b, moves, r, d) && lines == Normalised(d, b.orders[r].amount)
    case _ => true
  }

  ghost predicate AllStem(b: Base, moves: seq<Move>, p: Program) {
    forall k | 0 <= k < |p| :: Stems(b, moves, p[k])
  }

  ghost predicate SameTerms(b: Base, b': Base) {
    && b'.orders.Keys == b.orders.Keys
    && forall r | r in b.orders :: b'.orders[r].paid == b.orders[r].paid && b'.orders[r].amount == b.orders[r].amount
  }

  lemma ExecKeepsTerms(b: Base, i: Instr)
    ensures SameTerms(b, Exec(b, i).0)
  {
    hide Plan, HasPending, Clashes, Normalised, CourseAfter, OrderAfter, ActiveDeliveries;
  }

  lemma PlanStems(b: Base, s: Base, moves: seq<Move>, e: Event)
    requires SameTerms(b, s) && Arrive(e) in moves
    ensures AllStem(b, moves, Plan(s, e))
  {
    hide Stale, CarriesPayment, CourseNamed, GroupNamed, Normalised;
    if e.CodeEntered? && Validate(s, e.numero, e.code, e.apiKey).Confirmed? {
      assert CarriesPayment(e.declaration) ==> DeclaresFor(e, e.numero);
      assert CarriesPayment(e.declaration) && !s.orders[e.numero].paid ==> Booking(b, moves, e.numero, e.declaration);
      hide Validate, Booking;
    } else {
      hide Validate, Booking;
    }
  }

  lemma ExecStems(b: Base, s: Base, moves: seq<Move>, i: Instr)
    requires SameTerms(b, s) && Stems(b, moves, i)
    ensures AllStem(b, moves, Exec(s, i).1)
  {
    match i {
      case Start(e) => PlanStems(b, s, moves, e); hide AllStem, Plan;
      case ReadForSettling(r, d) =>
        if HasOrder(s, r) && !s.orders[r].paid {
          var e :| Arrive(e) in moves && e.HandedOver? && e.numero == r && e.declaration == d;
          assert DeclaresFor(e, r);
          assert Booking(b, moves, r, d);
        }
        hide Booking;
      case _ => hide Booking, HasPending, ActiveDeliveries, Normalised, CourseAfter, OrderAfter;
    }
  }

  lemma StemsLater(b: Base, moves: seq<Move>, m: Move, p: Program)
    requires AllStem(b, moves, p)
    ensures AllStem(b, moves + [m], p)
  {
    assert forall x | x in moves :: x in moves + [m];
    forall k | 0 <= k < |p| ensures Stems(b, moves + [m], p[k]) {
      assert Stems(b, moves, p[k]);
      forall r, d | Booking(b, moves, r, d) ensures Booking(b, moves + [m], r, d) {
      }
      hide Booking;
    }
  }

  ghost predicate SystemStems(b: Base, moves: seq<Move>, s: System) {
    && SameTerms(b, s.base)
    && forall t | 0 <= t < |s.threads| :: AllStem(b, moves, s.threads[t])
  }

  lemma {:induction false} RunStems(b: Base, moves: seq<Move>)
    ensures SystemStems(b, moves, RunSystem(Initial(b), moves))
  {
    if moves != [] {
      var before, m := moves[..|moves| - 1], moves[|moves| - 1];
      RunStems(b, before);
      NextStems(b, before, RunSystem(Initial(b), before), m);
      assert before + [m] == moves;
      hide SystemStems, Next;
    }
  }

  lemma NextStems(b: Base, before: seq<Move>, s: System, m: Move)
    requires SystemStems(b, before, s)
    ensures SystemStems(b, before + [m], Next(s, m))
  {
    forall t | 0 <= t < |s.threads| ensures AllStem(b, before + [m], s.threads[t]) {
      StemsLater(b, before, m, s.threads[t]);
    }
    if Access(s, m).Some? {
      var i := Access(s, m).value;
      assert Stems(b, before + [m], s.threads[m.thread][0]);
      ExecStems(b, s.base, before + [m], i);
      ExecKeepsTerms(s.base, i);
    }
    hide Exec, Stems, ClosedBy;
  }

  /** Whatever a handler tries to insert is one whole declaration about the unpaid order. */
  lemma {:induction false} TriesAreDeclarations(b: Base, moves: seq<Move>, r: string, k: nat)
    requires k < |Tries(b, moves, r)|
    ensures exists d :: Booking(b, moves, r, d) && BookedFrom(Tries(b, moves, r)[k], d, b.orders[r].amount)
  {
    var before, m := moves[..|moves| - 1], moves[|moves| - 1];
    var s := RunSystem(Initial(b), before);
    assert before + [m] == moves;
    if k < |Tries(b, before, r)| {
      TriesAreDeclarations(b, before, r, k);
      var d :| Booking(b, before, r, d) && BookedFrom(Tries(b, before, r)[k], d, b.orders[r].amount);
      assert forall x | x in before :: x in moves;
      assert Booking(b, moves, r, d);
    } else {
      RunStems(b, before);
      NextStems(b, before, s, m);
      hide SystemStems, RunSystem;
      TryStems(b, before, s, m, r);
      var d :| Booking(b, moves, r, d) && Access(s, m).value.lines == Normalised(d, b.orders[r].amount);
      BookedFromHolds(d, b.orders[r].amount);
    }
    hide BookedFrom, Booking;
  }

  lemma TryStems(b: Base, before: seq<Move>, s: System, m: Move, r: string)
    requires SystemStems(b, before, s) && Access(s, m).Some?
    requires Access(s, m).value.InsertLines? && Access(s, m).value.ref == r
    ensures exists d :: Booking(b, before + [m], r, d) && Access(s, m).value.lines == Normalised(d, b.orders[r].amount)
  {
    StemsLater(b, before, m, s.threads[m.thread]);
    assert Stems(b, before + [m], s.threads[m.thread][0]);
    hide Booking, Normalised;
  }

  lemma ExecOnLines(b: Base, i: Instr, r: string)
    requires i.InsertLines? ==> DistinctSources(i.lines)
    ensures PendingLines(Exec(b, i).0.payments, r)
         == var pending := PendingLines(b.payments, r);
            if i.InsertLines? && i.ref == r && !ShareSource(pending, i.lines) then pending + i.lines else pending
  {
    if i.InsertLines? {
      InsertionOnLines(b, i.ref, i.lines, r);
    }
    hide Plan, PendingLines, InsertPayments, ShareSource, HasPending, Normalised, CourseAfter, OrderAfter,
      ActiveDeliveries;
  }

  /** The awaiting lines of an order are those of the tries that entered. */
  lemma {:induction false} PendingIsEntered(b: Base, moves: seq<Move>, r: string)
    requires !HasPending(b.payments, r)
    ensures PendingLines(RunSystem(Initial(b), moves).base.payments, r) == Entered(Tries(b, moves, r))
  {
    hide Next, Entered, PendingLines;
    if moves == [] {
      PendingLinesEmpty(b.payments, r);
      EnteredNothing();
    } else {
      var before, m := moves[..|moves| - 1], moves[|moves| - 1];
      PendingIsEntered(b, before, r);
      InsertionsAreDistinct(b, before, m);
      NextIsEntered(RunSystem(Initial(b), before), m, r, Tries(b, before, r));
    }
  }

  lemma EnteredNothing()
    ensures Entered([]) == []
  {
  }

  lemma NextIsEntered(s: System, m: Move, r: string, tries: seq<seq<Line>>)
    requires PendingLines(s.base.payments, r) == Entered(tries)
    requires Access(s, m).Some? && Access(s, m).value.InsertLines? ==> DistinctSources(Access(s, m).value.lines)
    ensures PendingLines(Next(s, m).base.payments, r) == Entered(tries + TriedBy(Access(s, m), r))
  {
    assert tries + [] == tries;
    if Access(s, m).Some? {
      var i := Access(s, m).value;
      ExecOnLines(s.base, i, r);
      assert i.InsertLines? ==> (tries + [i.lines])[..|tries|] == tries;
    }
    hide Exec, PendingLines, ShareSource, DistinctSources, ClosedBy;
  }

  lemma InsertionsAreDistinct(b: Base, before: seq<Move>, m: Move)
    ensures var i := Access(RunSystem(Initial(b), before), m);
            i.Some? && i.value.InsertLines? ==> DistinctSources(i.value.lines)
  {
    var s := RunSystem(Initial(b), before);
    RunStems(b, before);
    hide RunSystem;
    if Access(s, m).Some? && Access(s, m).value.InsertLines? {
      TryStems(b, before, s, m, Access(s, m).value.ref);
      hide SystemStems;
      var d :| Booking(b, before + [m], Access(s, m).value.ref, d)
               && Access(s, m).value.lines == Normalised(d, b.orders[Access(s, m).value.ref].amount);
      BookedFromHolds(d, b.orders[Access(s, m).value.ref].amount);
      hide Booking, Normalised;
    }
  }

  // ---- One declaration --------------------------------------------------------------------------------

  lemma {:induction false} FirstTryEnters(tries: seq<seq<Line>>)
    requires tries != []
    ensures tries[0] <= Entered(tries)
  {
    NothingShared(tries[0]);
    hide ShareSource;
    var n := |tries| - 1;
    if n > 0 {
      FirstTryEnters(tries[..n]);
    } else {
      assert Entered([]) == [] && tries[..0] == [];
    }
  }

  lemma {:induction false} OnlyFirstEntersIff(tries: seq<seq<Line>>)
    requires tries != [] && forall k | 0 <= k < |tries| :: tries[k] != []
    ensures Entered(tries) == tries[0] <==> forall k | 0 < k < |tries| :: ShareSource(tries[0], tries[k])
  {
    NothingShared(tries[0]);
    hide ShareSource;
    var n := |tries| - 1;
    if n > 0 {
      var before := tries[..n];
      OnlyFirstEntersIff(before);
      FirstTryEnters(before);
      assert forall k | 0 <= k < n :: before[k] == tries[k];
    } else {
      assert Entered([]) == [] && tries[..0] == [];
    }
  }

  lemma DeclarationsAreNotEmpty(d: Declaration, amount: int)
    ensures Normalised(d, amount) != []
  {
    hide Resolve;
  }

  /**
   Main result: over any interleaving, an order's awaiting lines start with the first declaration whose check passed,
   and they are that one declaration iff every later one that passed its check shares a source with it.
   */
  lemma OneDeclarationIff(b: Base, moves: seq<Move>, r: string)
    requires !HasPending(b.payments, r)
    ensures var pending, tries := PendingLines(RunSystem(Initial(b), moves).base.payments, r), Tries(b, moves, r);
            && (tries == [] ==> pending == [])
            && (tries != [] ==>
                  && tries[0] <= pending
                  && (pending == tries[0] <==> forall k | 0 < k < |tries| :: ShareSource(tries[0], tries[k])))
            && (forall k | 0 <= k < |tries| ::
                  exists d :: Booking(b, moves, r, d) && BookedFrom(tries[k], d, b.orders[r].amount))
  {
    var tries := Tries(b, moves, r);
    PendingIsEntered(b, moves, r);
    forall k | 0 <= k < |tries|
      ensures tries[k] != []
      ensures exists d :: Booking(b, moves, r, d) && BookedFrom(tries[k], d, b.orders[r].amount)
    {
      TriesAreDeclarations(b, moves, r, k);
      var d :| Booking(b, moves, r, d) && BookedFrom(tries[k], d, b.orders[r].amount);
      DeclarationsAreNotEmpty(d, b.orders[r].amount);
      assert tries[k] == Normalised(d, b.orders[r].amount);
      hide *;
    }
    hide RunSystem, Tries, PendingLines, Booking, BookedFrom, ShareSource;
    if tries != [] {
      FirstTryEnters(tries);
      OnlyFirstEntersIff(tries);
    }
  }

  // ---- Both checks can pass ---------------------------------------------------------------------------

  /** What a handover does to the delivery and its course before it settles the order. */
  function Prelude(b: Base, r: string): Program {
    if HasDelivery(b, r) then [MoveDelivery(r, Delivered), CountThenComplete(b.deliveries[r].course)] else []
  }

  lemma PlannedHandover(b: Base, r: string, d: Declaration)
    requires HasOrder(b, r)
    ensures Exec(b, Start(HandedOver(r, "", d))) == (b, Prelude(b, r) + [ReadForSettling(r, d)])
  {
  }

  lemma PreludeKeepsOrders(b: Base, s: Base, r: string)
    ensures Drain(s, Prelude(b, r)).orders == s.orders && Drain(s, Prelude(b, r)).payments == s.payments
  {
    if HasDelivery(b, r) {
      var c := b.deliveries[r].course;
      DrainTwo(s, MoveDelivery(r, Delivered), CountThenComplete(c));
      DrainWrite(s, MoveDelivery(r, Delivered));
      DrainCounts(AdvanceDelivery(s, r, Delivered), c);
      hide Drain, ActiveDeliveries, CourseAfter, DeliveryRank;
    } else {
      DrainNothing(s);
    }
  }

  lemma BothArrive(b: Base, r: string, d: Declaration, d': Declaration) returns (moves: seq<Move>)
    requires HasOrder(b, r)
    ensures var s := RunSystem(Initial(b), moves);
            && s.base == b && |s.threads| == 2
            && s.threads[0] == Prelude(b, r) + [ReadForSettling(r, d)]
            && s.threads[1] == Prelude(b, r) + [ReadForSettling(r, d')]
  {
    var s0, first, second := Initial(b), HandedOver(r, "", d), HandedOver(r, "", d');
    PlannedHandover(b, r, d);
    PlannedHandover(b, r, d');
    assert RunSystem(s0, []) == s0;
    hide RunSystem, Exec, Prelude;
    moves := ThenArrive(s0, [], first);
    moves := ThenArrive(s0, moves, second);
    assert [Start(first)] == [Start(first)] + [] && [Start(second)] == [Start(second)] + [];
    var p, p' := Prelude(b, r) + [ReadForSettling(r, d)], Prelude(b, r) + [ReadForSettling(r, d')];
    assert p + [] == p && p' + [] == p';
    moves := ThenTurn(s0, moves, 0, Start(first), []);
    moves := ThenTurn(s0, moves, 1, Start(second), []);
  }

  lemma BothSettle(b: Base, r: string, d: Declaration, d': Declaration) returns (moves: seq<Move>)
    requires HasOrder(b, r)
    ensures var s := RunSystem(Initial(b), moves);
            && s.base.orders == b.orders && s.base.payments == b.payments && |s.threads| == 2
            && s.threads[0] == [ReadForSettling(r, d)] && s.threads[1] == [ReadForSettling(r, d')]
  {
    moves := BothArrive(b, r, d, d');
    hide Exec, RunSystem, Drain;
    var s := RunSystem(Initial(b), moves);
    var more := PrefixDrains(s, 0, Prelude(b, r), [ReadForSettling(r, d)]);
    RunConcat(Initial(b), moves, more);
    PreludeKeepsOrders(b, s.base, r);
    moves := moves + more;
    var s' := RunSystem(Initial(b), moves);
    more := PrefixDrains(s', 1, Prelude(b, r), [ReadForSettling(r, d')]);
    RunConcat(Initial(b), moves, more);
    PreludeKeepsOrders(b, s'.base, r);
    moves := moves + more;
  }

  lemma SettlingAccesses(b: Base, r: string, d: Declaration)
    requires HasOrder(b, r) && !b.orders[r].paid && !TerminalOrder(b.orders[r].status) && !HasPending(b.payments, r)
    ensures var amount := b.orders[r].amount;
            && Exec(b, ReadForSettling(r, d)) == (b, [CheckPending(r, amount, d), ReadOrder(r, Collected)])
            && Exec(b, CheckPending(r, amount, d)) == (b, [InsertLines(r, Normalised(d, amount))])
  {
    hide HasPending, Normalised;
  }

  lemma BothChecked(b: Base, r: string, d: Declaration, d': Declaration) returns (moves: seq<Move>)
    requires HasOrder(b, r) && !b.orders[r].paid && !TerminalOrder(b.orders[r].status) && !HasPending(b.payments, r)
    ensures var s := RunSystem(Initial(b), moves);
            && s.base.payments == b.payments && |s.threads| == 2
            && s.threads[0] == [InsertLines(r, Normalised(d, b.orders[r].amount))] + [ReadOrder(r, Collected)]
            && s.threads[1] == [InsertLines(r, Normalised(d', b.orders[r].amount))] + [ReadOrder(r, Collected)]
  {
    moves := BothSettle(b, r, d, d');
    var s0, s, amount := Initial(b), RunSystem(Initial(b), moves), b.orders[r].amount;
    SettlingAccesses(s.base, r, d);
    SettlingAccesses(s.base, r, d');
    hide Exec, RunSystem, Normalised, HasPending;
    var settle, settle', check, check', rest := ReadForSettling(r, d), ReadForSettling(r, d'),
      CheckPending(r, amount, d), CheckPending(r, amount, d'), [ReadOrder(r, Collected)];
    assert [settle] == [settle] + [] && [settle'] == [settle'] + [];
    assert [check, rest[0]] + [] == [check] + rest && [check', rest[0]] + [] == [check'] + rest;
    moves := ThenTurn(s0, moves, 0, settle, []);
    moves := ThenTurn(s0, moves, 1, settle', []);
    moves := ThenTurn(s0, moves, 0, check, rest);
    moves := ThenTurn(s0, moves, 1, check', rest);
  }

  lemma BothCheckedUntried(b: Base, r: string, d: Declaration, d': Declaration) returns (moves: seq<Move>)
    requires HasOrder(b, r) && !b.orders[r].paid && !TerminalOrder(b.orders[r].status) && !HasPending(b.payments, r)
    ensures var s := RunSystem(Initial(b), moves);
            && PendingLines(s.base.payments, r) == [] && |s.threads| == 2
            && s.threads[0] == [InsertLines(r, Normalised(d, b.orders[r].amount))] + [ReadOrder(r, Collected)]
            && s.threads[1] == [InsertLines(r, Normalised(d', b.orders[r].amount))] + [ReadOrder(r, Collected)]
    ensures Tries(b, moves, r) == []
  {
    hide Exec, RunSystem, Normalised, PendingLines, Tries;
    moves := BothChecked(b, r, d, d');
    PendingLinesEmpty(b.payments, r);
    NothingTriedYet(b, moves, r);
  }

  /** As long as nothing awaits confirmation, nothing was tried. */
  lemma NothingTriedYet(b: Base, moves: seq<Move>, r: string)
    requires !HasPending(b.payments, r) && PendingLines(RunSystem(Initial(b), moves).base.payments, r) == []
    ensures Tries(b, moves, r) == []
  {
    OneDeclarationIff(b, moves, r);
    var tries := Tries(b, moves, r);
    hide RunSystem, Tries, PendingLines;
    if tries != [] {
      var d :| Booking(b, moves, r, d) && BookedFrom(tries[0], d, b.orders[r].amount);
      DeclarationsAreNotEmpty(d, b.orders[r].amount);
    }
  }

  lemma TriesThen(b: Base, moves: seq<Move>, t: nat, i: Instr, rest: Program)
    requires t < |RunSystem(Initial(b), moves).threads| && RunSystem(Initial(b), moves).threads[t] == [i] + rest
    requires i.InsertLines?
    ensures Tries(b, moves + [Turn(t)], i.ref) == Tries(b, moves, i.ref) + [i.lines]
  {
    assert (moves + [Turn(t)])[..|moves|] == moves;
    hide RunSystem;
  }

  /**
   Main result: for any unpaid open order that awaits nothing and any two handovers of it, there is a run in which both
   checks pass; it books both declarations whenever they share no source.
   */
  lemma BothDeclarationsEnter(b: Base, r: string, d: Declaration, d': Declaration) returns (moves: seq<Move>)
    requires HasOrder(b, r) && !b.orders[r].paid && !TerminalOrder(b.orders[r].status) && !HasPending(b.payments, r)
    ensures var first, second := Normalised(d, b.orders[r].amount), Normalised(d', b.orders[r].amount);
            && Tries(b, moves, r) == [first, second]
            && PendingLines(RunSystem(Initial(b), moves).base.payments, r)
               == if ShareSource(first, second) then first else first + second
  {
    hide Exec, RunSystem, Normalised, PendingLines, ShareSource, Tries, HasPending;
    moves := BothCheckedUntried(b, r, d, d');
    var amount, rest := b.orders[r].amount, [ReadOrder(r, Collected)];
    var first, second := Normalised(d, amount), Normalised(d', amount);
    var s0, s := Initial(b), RunSystem(Initial(b), moves);
    TwoInsertions(s.base, r, d, d', amount);
    TriesThen(b, moves, 0, InsertLines(r, first), rest);
    moves := ThenTurn(s0, moves, 0, InsertLines(r, first), rest);
    TriesThen(b, moves, 1, InsertLines(r, second), rest);
    moves := ThenTurn(s0, moves, 1, InsertLines(r, second), rest);
    assert [] + [first] + [second] == [first, second];
  }

  lemma TwoInsertions(b: Base, r: string, d: Declaration, d': Declaration, amount: int)
    requires PendingLines(b.payments, r) == []
    ensures var first, second := Normalised(d, amount), Normalised(d', amount);
            var b' := Exec(Exec(b, InsertLines(r, first)).0, InsertLines(r, second)).0;
            PendingLines(b'.payments, r) == if ShareSource(first, second) then first else first + second
  {
    var first, second := Normalised(d, amount), Normalised(d', amount);
    BookedFromHolds(d, amount);
    BookedFromHolds(d', amount);
    NothingShared(first);
    hide Exec, Normalised, PendingLines, ShareSource;
    ExecOnLines(b, InsertLines(r, first), r);
    ExecOnLines(Exec(b, InsertLines(r, first)).0, InsertLines(r, second), r);
    assert [] + first == first;
  }
}
