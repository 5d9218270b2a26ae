/** Serial handlers: an order's awaiting payments are booked once, from one declaration. */
module TurboPayments {
  import opened Encaissement
  import opened TurboRows
  import opened TurboConfluence

  /** The awaiting payments of an order, as lines. */
  ghost function PendingLines(payments: seq<Payment>, order: string): seq<Line> {
    if payments == [] then []
    else
      var init, last := PendingLines(payments[..|payments| - 1], order), payments[|payments| - 1];
      if last.order == order && last.status == AwaitingConfirmation then init + [last.line] else init
  }

  predicate DeclaresFor(e: Event, order: string) {
    e.numero == order && (e.HandedOver? || (e.CodeEntered? && CarriesPayment(e.declaration)))
  }

  /** What one declaration books for an order of this amount. */
  ghost predicate BookedFrom(lines: seq<Line>, d: Declaration, amount: int) {
    && lines == Normalised(d, amount)
    && DistinctSources(lines)
    && Total(lines) ==
         if exists e :: e in d.entries && ValidEntry(e) then DeclaredTotal(d.entries)
         else if d.amount.Some? && d.amount.value > 0 then d.amount.value
         else amount
  }

  lemma {:induction false} PendingLinesEmpty(payments: seq<Payment>, order: string)
    ensures PendingLines(payments, order) == [] <==> !HasPending(payments, order)
    decreases |payments|
  {
    if payments != [] {
      var init := payments[..|payments| - 1];
      PendingLinesEmpty(init, order);
      assert payments == init + [payments[|payments| - 1]];
    }
  }

  lemma {:induction false} PendingLinesOfRows(payments: seq<Payment>, order: string, lines: seq<Line>, other: string)
    ensures PendingLines(payments + PaymentRows(order, lines), other)
            == PendingLines(payments, other) + if other == order then lines else []
    decreases |lines|
  {
    var all := payments + PaymentRows(order, lines);
    if lines == [] {
      assert all == payments;
    } else {
      var n := |lines| - 1;
      PendingLinesOfRows(payments, order, lines[..n], other);
      assert all[..|all| - 1] == payments + PaymentRows(order, lines[..n]);
      assert all[|all| - 1] == Payment(order, lines[n], AwaitingConfirmation);
      assert lines == lines[..n] + [lines[n]];
    }
  }

  lemma BookedFromHolds(d: Declaration, amount: int)
    ensures BookedFrom(Normalised(d, amount), d, amount)
  {
    AggregateConserves(d.entries, "");
    var single := SingleField(d, amount);
    assert Total([single]) == Total([]) + single.amount by {
      assert [single][..0] == [];
    }
    hide Resolve;
  }

  /** Without an awaiting payment, the index lets a whole declaration in. */
  lemma FirstDeclarationEnters(b: Base, order: string, amount: int, d: Declaration)
    requires !HasPending(b.payments, order)
    ensures Declare(b, order, amount, d).payments == b.payments + PaymentRows(order, Normalised(d, amount))
  {
    BookedFromHolds(d, amount);
    hide Normalised;
    assert !Clashes(b.payments, order, Normalised(d, amount));
  }

  ghost predicate Unchanged(b: Base, b': Base) {
    b'.payments == b.payments
  }

  /** The payments after one handler: unchanged, or one whole declaration for an unpaid order without any. */
  lemma HandlePays(b: Base, e: Event)
    ensures Unchanged(b, Handle(b, e)) ||
            (&& e.numero in b.orders && DeclaresFor(e, e.numero)
             && !b.orders[e.numero].paid && !TerminalOrder(b.orders[e.numero].status)
             && !HasPending(b.payments, e.numero)
             && Handle(b, e).payments
                == b.payments + PaymentRows(e.numero, Normalised(e.declaration, b.orders[e.numero].amount)))
  {
    hide Normalised, HasPending, Clashes, ActiveDeliveries, Stale, OrderAfter, CourseAfter, CarriesPayment,
      DeliveryRank, PaymentRows, InsertPayments;
    match e {
      case HandedOver(numero, _, d) =>
        if numero in b.orders {
          var b1 := if HasDelivery(b, numero)
                    then CompleteIfDone(AdvanceDelivery(b, numero, Delivered), b.deliveries[numero].course) else b;
          if !HasPending(b.payments, numero) {
            FirstDeclarationEnters(b, numero, b.orders[numero].amount, d);
            FirstDeclarationEnters(b1, numero, b.orders[numero].amount, d);
          }
        }
      case CodeEntered(numero, code, key, d) =>
        if Validate(b, numero, code, key).Confirmed? && !HasPending(b.payments, numero) {
          FirstDeclarationEnters(SetDelivery(b, numero, Delivered), numero, b.orders[numero].amount, d);
        }
      case _ =>
    }
  }

  /** Main result: over any serial run, an order's awaiting payments all come from one declaration about it. */
  lemma {:induction false} DeclaredOnce(b: Base, es: seq<Event>, order: string)
    requires order in b.orders && !HasPending(b.payments, order)
    ensures var pending := PendingLines(Run(b, es).payments, order);
            || pending == []
            || (&& !b.orders[order].paid
                && exists e :: e in es && DeclaresFor(e, order)
                    && BookedFrom(pending, e.declaration, b.orders[order].amount))
  {
    hide Handle, HasPending, BookedFrom, DeclaresFor;
    if es == [] {
      PendingLinesEmpty(b.payments, order);
    } else {
      var n := |es| - 1;
      var s, e := Run(b, es[..n]), es[n];
      DeclaredOnce(b, es[..n], order);
      OrdersKeepTheirTerms(b, es[..n], order);
      HandlerBooksOnce(s, e, order);
      assert e in es;
      assert forall x | x in es[..n] :: x in es;
    }
  }

  lemma OrdersKeepTheirTerms(b: Base, es: seq<Event>, order: string)
    requires order in b.orders
    ensures order in Run(b, es).orders
    ensures Run(b, es).orders[order].amount == b.orders[order].amount
             && Run(b, es).orders[order].paid == b.orders[order].paid
  {
    RunMovesAhead(b, es, 0);
    hide Handle, DeliveriesAhead, CoursesAhead;
    assert es[..0] == [];
  }

  lemma HandlerBooksOnce(s: Base, e: Event, order: string)
    requires order in s.orders
    ensures var pending, pending' := PendingLines(s.payments, order), PendingLines(Handle(s, e).payments, order);
            pending' == pending
            || (&& pending == [] && !s.orders[order].paid && DeclaresFor(e, order)
                && BookedFrom(pending', e.declaration, s.orders[order].amount))
  {
    HandlePays(s, e);
    hide Handle, Normalised, HasPending, PaymentRows;
    if !Unchanged(s, Handle(s, e)) {
      var amount := s.orders[e.numero].amount;
      var lines := Normalised(e.declaration, amount);
      PendingLinesEmpty(s.payments, order);
      PendingLinesOfRows(s.payments, e.numero, lines, order);
      assert [] + lines == lines;
      BookedFromHolds(e.declaration, amount);
    }
    hide BookedFrom;
  }

  /** A reported handover of an unpaid open order always leaves an awaiting payment behind. */
  lemma HandoverIsBooked(b: Base, numero: string, course: string, d: Declaration)
    requires HasOrder(b, numero) && !b.orders[numero].paid && !TerminalOrder(b.orders[numero].status)
    requires Live(b, HandedOver(numero, course, d))
    ensures HasPending(Handle(b, HandedOver(numero, course, d)).payments, numero)
  {
    var b1 := if HasDelivery(b, numero)
              then CompleteIfDone(AdvanceDelivery(b, numero, Delivered), b.deliveries[numero].course) else b;
    var amount := b.orders[numero].amount;
    var after := Declare(b1, numero, amount, d).payments;
    hide ActiveDeliveries, OrderAfter, CourseAfter, DeliveryRank, Stale;
    assert b1.payments == b.payments && b1.orders == b.orders;
    if !HasPending(b.payments, numero) {
      FirstDeclarationEnters(b1, numero, amount, d);
      AggregateConserves(d.entries, "");
      var lines := Normalised(d, amount);
      assert lines != [];
      assert after[|b.payments|] == Payment(numero, lines[0], AwaitingConfirmation);
      assert after[|b.payments|] in after;
    }
    assert HasPending(after, numero);
  }
}
