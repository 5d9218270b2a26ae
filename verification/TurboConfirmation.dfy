/** Code validations: the one way out of CANCELLED for a delivery. */
module TurboConfirmation {
  import opened Wrappers
  import opened Encaissement
  import opened TurboRows
  import TurboEffects
  import opened TurboInterleaving
  import opened TurboSystem

  // ---- A cancelled delivery may still be delivered --------------------------------------------------

  predicate Confirms(b: Base, e: Event, r: string) {
    e.CodeEntered? && e.numero == r && Validate(b, r, e.code, e.apiKey) == Confirmed
  }

  /** Course, order and payment writes leave the deliveries alone. */
  lemma OtherWritesKeepDeliveries(
    b: Base, numero: string, course: string, next: CourseStatut, status: OrderStatus, d: Declaration)
    ensures AdvanceCourse(b, course, next).deliveries == b.deliveries
    ensures SyncStatus(b, numero, status).deliveries == b.deliveries
    ensures CompleteIfDone(b, course).deliveries == b.deliveries
    ensures CancelIfDone(b, course).deliveries == b.deliveries
    ensures SettleOrder(b, numero, d).deliveries == b.deliveries
    ensures HasDelivery(b, numero) ==>
              ConfirmDelivery(b, numero, d).deliveries == SetDelivery(b, numero, Delivered).deliveries
  {
    hide HasPending, Clashes, Normalised, CourseAfter, OrderAfter, CarriesPayment, ActiveDeliveries;
  }

  lemma HandleOnDeliveries(b: Base, e: Event)
    ensures Handle(b, e).deliveries ==
            if HasDelivery(b, e.numero) && Stale(b, e.numero, CourseNamed(e)) then b.deliveries
            else DeliveriesAfter(b, e)
  {
    var n, none := e.numero, Declaration([], None, None);
    var known := HasDelivery(b, n);
    var course := if known then b.deliveries[n].course else "";
    hide AdvanceCourse, SyncStatus, CompleteIfDone, CancelIfDone, SettleOrder, ConfirmDelivery, Stale, DropGroup,
      Validate, AdvanceDelivery, SetDelivery, CourseNamed, GroupNamed;
    match e {
      case CourierAssigned(_, _) => OtherWritesKeepDeliveries(b, n, course, Assigned, PickedUp, none);
      case PickupStarted(_, _) => OtherWritesKeepDeliveries(b, n, course, AtRestaurant, PickedUp, none);
      case TakenAway(_, _) => DepartureKeepsDeliveries(b, n, course);
      case InTransit(_, _) => DepartureKeepsDeliveries(b, n, course);
      case HandedOver(_, _, d) =>
        var b1 := if known then AdvanceDelivery(b, n, Delivered) else b;
        OtherWritesKeepDeliveries(b1, n, course, Finished, Collected, d);
        OtherWritesKeepDeliveries(if known then CompleteIfDone(b1, course) else b, n, course, Finished, Collected, d);
      case CancelledByTurbo(_, _, _) =>
        OtherWritesKeepDeliveries(SetDelivery(b, n, Dropped), n, course, Finished, Collected, none);
        OtherWritesKeepDeliveries(DropGroup(b, GroupNamed(e)), n, GroupNamed(e), Finished, Collected, none);
      case CodeEntered(_, _, _, d) => OtherWritesKeepDeliveries(b, n, course, Finished, Collected, d);
    }
  }

  lemma DepartureKeepsDeliveries(b: Base, n: string, course: string)
    ensures SyncStatus(b, n, PickedUp).deliveries == b.deliveries
    ensures SyncStatus(AdvanceDelivery(AdvanceCourse(b, course, InDelivery), n, InRoute), n, PickedUp).deliveries
         == AdvanceDelivery(b, n, InRoute).deliveries
  {
    hide CourseAfter, OrderAfter;
  }

  /** The deliveries left by a handler whose event is not stale. */
  function DeliveriesAfter(b: Base, e: Event): map<string, Delivery> {
    var n := e.numero;
    match e
    case CourierAssigned(_, _) => b.deliveries
    case PickupStarted(_, _) => b.deliveries
    case TakenAway(_, _) => if HasDelivery(b, n) then AdvanceDelivery(b, n, InRoute).deliveries else b.deliveries
    case InTransit(_, _) => if HasDelivery(b, n) then AdvanceDelivery(b, n, InRoute).deliveries else b.deliveries
    case HandedOver(_, _, _) => if HasDelivery(b, n) then AdvanceDelivery(b, n, Delivered).deliveries else b.deliveries
    case CancelledByTurbo(_, _, _) =>
      var group := GroupNamed(e);
      if HasDelivery(b, n) then
        if TerminalDelivery(b.deliveries[n].statut) then b.deliveries else SetDelivery(b, n, Dropped).deliveries
      else if group != "" && group in b.courses then DropGroup(b, group).deliveries
      else b.deliveries
    case CodeEntered(_, code, key, _) =>
      match Validate(b, n, code, key)
      case WrongCode(k) => b.deliveries[n := b.deliveries[n].(attempts := k)]
      case Confirmed => SetDelivery(b, n, Delivered).deliveries
      case _ => b.deliveries
  }

  /** Main result, one handler at a time: exactly a confirmed code brings a CANCELLED delivery back, as DELIVERED. */
  lemma CancelledRisesIff(b: Base, e: Event, r: string)
    requires r in b.deliveries && b.deliveries[r].statut.Dropped?
    ensures r in Handle(b, e).deliveries
    ensures !Handle(b, e).deliveries[r].statut.Dropped? <==> Confirms(b, e, r)
    ensures Confirms(b, e, r) ==> Handle(b, e).deliveries[r].statut.Delivered?
  {
    HandleOnDeliveries(b, e);
    hide Handle, GroupNamed;
  }

  lemma CancellationKeepsTerms(b: Base, r: string)
    requires HasDelivery(b, r) && !TerminalDelivery(b.deliveries[r].statut)
    ensures var b' := Handle(b, CancelledByTurbo(r, None, ""));
            b'.orders == b.orders && b'.deliveries == b.deliveries[r := b.deliveries[r].(statut := Dropped)]
  {
    hide ActiveDeliveries;
  }

  /** It happens to any active delivery of an open order: Turbo cancels it, then the right code is entered. */
  lemma CancelledThenDelivered(b: Base, r: string, d: Declaration)
    requires HasDelivery(b, r) && !TerminalDelivery(b.deliveries[r].statut) && !TerminalOrder(b.orders[r].status)
    requires b.orders[r].apiKey != "" && b.deliveries[r].pin != "" && b.deliveries[r].attempts < MAX_CODE_ATTEMPTS
    ensures var cancel := CancelledByTurbo(r, None, "");
            var code := CodeEntered(r, b.deliveries[r].pin, b.orders[r].apiKey, d);
            && r in Run(b, [cancel]).deliveries && Run(b, [cancel]).deliveries[r].statut.Dropped?
            && r in Run(b, [cancel, code]).deliveries && Run(b, [cancel, code]).deliveries[r].statut.Delivered?
  {
    var cancel := CancelledByTurbo(r, None, "");
    var code := CodeEntered(r, b.deliveries[r].pin, b.orders[r].apiKey, d);
    hide Handle;
    assert [cancel, code][..1] == [cancel] && [cancel][..0] == [];
    assert Run(b, [cancel]) == Handle(b, cancel);
    assert Run(b, [cancel, code]) == Handle(Handle(b, cancel), code);
    hide Run;
    CancellationKeepsTerms(b, r);
    CancelledRisesIff(Handle(b, cancel), code, r);
  }

  lemma ExecRaisesIff(b: Base, i: Instr, r: string)
    requires r in b.deliveries && b.deliveries[r].statut.Dropped? && OnlyMovesForward([i])
    ensures r in Exec(b, i).0.deliveries
    ensures !Exec(b, i).0.deliveries[r].statut.Dropped? <==> i == WriteDelivered(r)
  {
    assert [i][0] == i;
    hide Plan, HasPending, InsertPayments, CourseAfter, OrderAfter, Normalised;
  }

  ghost predicate IsCancelled(s: System, r: string) {
    r in s.base.deliveries && s.base.deliveries[r].statut.Dropped?
  }

  ghost predicate NeverWritesDelivered(s: System, moves: seq<Move>, r: string) {
    forall k | 0 <= k < |moves| :: Access(RunSystem(s, moves[..k]), moves[k]) != Some(WriteDelivered(r))
  }

  lemma NextRaisesIff(s: System, m: Move, r: string)
    requires Safe(s) && Forward(s) && IsCancelled(s, r)
    ensures IsCancelled(Next(s, m), r) <==> Access(s, m) != Some(WriteDelivered(r))
  {
    if Access(s, m).Some? {
      assert OnlyMovesForward(s.threads[m.thread]);
      ExecRaisesIff(s.base, Access(s, m).value, r);
    }
    hide Exec, Safe;
  }

  lemma NextAt(s: System, moves: seq<Move>, k: nat)
    requires k < |moves| && Safe(s) && Forward(s)
    ensures RunSystem(s, moves[..k + 1]) == Next(RunSystem(s, moves[..k]), moves[k])
    ensures Safe(RunSystem(s, moves[..k])) && Forward(RunSystem(s, moves[..k]))
  {
    assert moves[..k + 1][..k] == moves[..k];
    RunIsSafe(s, moves[..k]);
    hide Next, Safe, Forward;
  }

  lemma {:induction false} StaysWithoutWrite(s: System, moves: seq<Move>, r: string, k: nat)
    requires k <= |moves| && Safe(s) && Forward(s) && IsCancelled(s, r) && NeverWritesDelivered(s, moves, r)
    ensures IsCancelled(RunSystem(s, moves[..k]), r)
  {
    if k > 0 {
      StaysWithoutWrite(s, moves, r, k - 1);
      NextAt(s, moves, k - 1);
      NextRaisesIff(RunSystem(s, moves[..k - 1]), moves[k - 1], r);
      hide Next, Safe, Forward, IsCancelled;
    }
  }

  /** Main result, interleaved: once CANCELLED, a delivery stays so iff no confirmed validation executes its write. */
  lemma CancelledStaysIff(b: Base, before: seq<Move>, moves: seq<Move>, r: string)
    requires IsCancelled(RunSystem(Initial(b), before), r)
    ensures var s := RunSystem(Initial(b), before);
            (forall k | 0 <= k <= |moves| :: IsCancelled(RunSystem(s, moves[..k]), r)) <==>
                NeverWritesDelivered(s, moves, r)
  {
    var s := RunSystem(Initial(b), before);
    RunIsSafe(Initial(b), before);
    hide Next, Safe, Forward, IsCancelled, RunSystem;
    if NeverWritesDelivered(s, moves, r) {
      forall k | 0 <= k <= |moves| ensures IsCancelled(RunSystem(s, moves[..k]), r) {
        StaysWithoutWrite(s, moves, r, k);
      }
    }
    if forall k | 0 <= k <= |moves| :: IsCancelled(RunSystem(s, moves[..k]), r) {
      forall k | 0 <= k < |moves| ensures Access(RunSystem(s, moves[..k]), moves[k]) != Some(WriteDelivered(r)) {
        NextAt(s, moves, k);
        assert IsCancelled(RunSystem(s, moves[..k + 1]), r);
        NextRaisesIff(RunSystem(s, moves[..k]), moves[k], r);
      }
    }
  }

  /** That write is only ever decided on by a confirmed code. */
  lemma OnlyConfirmationsWriteDelivered(b: Base, e: Event, r: string)
    ensures WriteDelivered(r) in Plan(b, e) <==> Confirms(b, e, r)
  {
    hide Validate, CarriesPayment, GroupNamed;
  }

  /** A confirmed validation by thread `t` before `k`. */
  ghost predicate ConfirmedBefore(b: Base, moves: seq<Move>, t: nat, k: nat, r: string)
    requires k <= |moves|
  {
    exists j, e ::
      && 0 <= j < k && moves[j] == Turn(t)
      && Access(RunSystem(Initial(b), moves[..j]), moves[j]) == Some(Start(e))
      && Confirms(RunSystem(Initial(b), moves[..j]).base, e, r)
  }

  lemma DecidesDelivered(b: Base, i: Instr, r: string)
    ensures WriteDelivered(r) in Exec(b, i).1 ==> i.Start? && Confirms(b, i.event, r)
  {
    if i.Start? {
      OnlyConfirmationsWriteDelivered(b, i.event, r);
      hide Plan, Confirms;
    } else {
      hide Plan, Confirms, HasPending, Normalised, CourseAfter, OrderAfter, ActiveDeliveries;
    }
  }

  lemma {:induction false} PlannedAfterConfirmation(b: Base, moves: seq<Move>, t: nat, k: nat, r: string)
    requires k <= |moves|
    requires var s := RunSystem(Initial(b), moves[..k]); t < |s.threads| && WriteDelivered(r) in s.threads[t]
    ensures ConfirmedBefore(b, moves, t, k, r)
  {
    if k > 0 {
      assert moves[..k][..k - 1] == moves[..k - 1];
      var s, m := RunSystem(Initial(b), moves[..k - 1]), moves[k - 1];
      assert RunSystem(Initial(b), moves[..k]) == Next(s, m);
      hide Exec, Confirms;
      if t < |s.threads| && WriteDelivered(r) in s.threads[t] {
        PlannedAfterConfirmation(b, moves, t, k - 1, r);
      } else {
        hide RunSystem;
        NewlyPlanned(s, m, t, r);
      }
    }
  }

  lemma NewlyPlanned(s: System, m: Move, t: nat, r: string)
    requires t < |Next(s, m).threads| && WriteDelivered(r) in Next(s, m).threads[t]
    requires !(t < |s.threads| && WriteDelivered(r) in s.threads[t])
    ensures m == Turn(t) && Access(s, m).Some? && Access(s, m).value.Start?
             && Confirms(s.base, Access(s, m).value.event, r)
  {
    if Access(s, m).Some? {
      DecidesDelivered(s.base, Access(s, m).value, r);
    }
    hide Exec, Confirms;
  }

  /** Main result: in any run, only a thread that found the code right executes that write. */
  lemma WrittenOnlyAfterConfirmation(b: Base, moves: seq<Move>, k: nat, r: string)
    requires k < |moves| && Access(RunSystem(Initial(b), moves[..k]), moves[k]) == Some(WriteDelivered(r))
    ensures ConfirmedBefore(b, moves, moves[k].thread, k, r)
  {
    PlannedAfterConfirmation(b, moves, moves[k].thread, k, r);
  }

  // ---- With the order's own key and pin ---------------------------------------------------------------

  /** Which orders and deliveries there are, their keys and their pins never change. */
  ghost predicate SameSecrets(b: Base, b': Base) {
    && b'.orders.Keys == b.orders.Keys && b'.deliveries.Keys == b.deliveries.Keys
    && (forall r | r in b.orders :: b'.orders[r].apiKey == b.orders[r].apiKey)
    && forall r | r in b.deliveries :: b'.deliveries[r].pin == b.deliveries[r].pin
  }

  lemma ExecKeepsSecrets(b: Base, i: Instr)
    ensures SameSecrets(b, Exec(b, i).0)
  {
    hide Plan, HasPending, Clashes, Normalised, CourseAfter, OrderAfter, DeliveryRank;
  }

  lemma {:induction false} RunKeepsSecrets(b: Base, moves: seq<Move>)
    ensures SameSecrets(b, RunSystem(Initial(b), moves).base)
  {
    if moves != [] {
      var s, m := RunSystem(Initial(b), moves[..|moves| - 1]), moves[|moves| - 1];
      RunKeepsSecrets(b, moves[..|moves| - 1]);
      if Access(s, m).Some? {
        ExecKeepsSecrets(s.base, Access(s, m).value);
      }
      hide Exec;
    }
  }

  /**
   Main result: in any run, a delivery is closed by a code only when the order's own key and its own pin were
   sent.
   */
  lemma OwnKeyAndPin(b: Base, moves: seq<Move>, k: nat, r: string)
    requires k < |moves| && Access(RunSystem(Initial(b), moves[..k]), moves[k]) == Some(WriteDelivered(r))
    ensures r in b.orders && r in b.deliveries
    ensures exists j, e ::
              && 0 <= j < k && moves[j] == moves[k]
              && Access(RunSystem(Initial(b), moves[..j]), moves[j]) == Some(Start(e))
              && e.CodeEntered? && e.numero == r
              && e.apiKey == b.orders[r].apiKey != "" && e.code == b.deliveries[r].pin != ""
  {
    WrittenOnlyAfterConfirmation(b, moves, k, r);
    var j, e :| && 0 <= j < k && moves[j] == Turn(moves[k].thread)
                && Access(RunSystem(Initial(b), moves[..j]), moves[j]) == Some(Start(e))
                && Confirms(RunSystem(Initial(b), moves[..j]).base, e, r);
    RunKeepsSecrets(b, moves[..j]);
    TurboEffects.ConfirmedIff(RunSystem(Initial(b), moves[..j]).base, r, e.code, e.apiKey);
    hide RunSystem, Validate;
  }
}
