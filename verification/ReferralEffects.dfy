/** What each referral operation books and turns, in rows, percentages and days. */
module ReferralEffects {
  import opened Wrappers
  import opened ReferralRows
  import opened ReferralLedger
  import opened ReferralWallet

  // ---- What stands --------------------------------------------------------------------------------------

  function StandsFor(referee: string): Filter {
    (e: Earning) => e.referee == referee && (e.status.Due? || e.status.Payable? || e.status.Paid?)
  }

  /** What counts against the cap: all of a referee's earnings that are not cancelled. */
  lemma {:induction false} StandingIs(es: seq<Earning>, referee: string)
    ensures Standing(es, referee) == Total(es, StandsFor(referee))
  {
    if es != [] {
      StandingIs(es[..|es| - 1], referee);
    }
  }

  /** The cap, when there is one, leaves at most this much of an amount. */
  function UnderCap(es: seq<Earning>, referee: string, amount: int, cap: int): int {
    var left := cap - Total(es, StandsFor(referee));
    if cap <= 0 || amount <= left then amount else if left <= 0 then 0 else left
  }

  lemma BoundedIs(es: seq<Earning>, referee: string, amount: int, cap: int)
    ensures Bounded(es, referee, amount, cap) > 0 || UnderCap(es, referee, amount, cap) > 0 ==>
              Bounded(es, referee, amount, cap) == UnderCap(es, referee, amount, cap)
  {
    StandingIs(es, referee);
    hide Standing, Total;
  }

  /** Which rows each figure of the wallet, the mobile screen and the admin list takes. */
  lemma FiguresTake(customer: string, referee: string, kind: EarningType, status: EarningStatus, e: Earning)
    ensures var theirs := e.referrer == customer;
            var stands := e.status.Due? || e.status.Payable? || e.status.Paid?;
            && (Gains(customer)(e) <==> theirs && stands)
            && (GainsFrom(customer, referee)(e) <==> theirs && stands && e.referee == referee)
            && (GainsOfKind(customer, kind)(e) <==> theirs && stands && (e.kind.Prime? <==> kind.Prime?))
            && (GainsFromByKind(customer, referee, kind)(e) <==>
                  theirs && stands && e.referee == referee && (e.kind.Prime? <==> kind.Prime?))
            && (GainsIn(customer, status)(e) <==> theirs && e.status == status)
  {
  }

  /**
   Main result: the primes shown per referee on the mobile screen sum to the wallet's primes, and so do the
   commissions.
   */
  lemma KindsAddUp(
    orders: map<string, Order>, config: Config, ops: seq<Operation>, customer: string, listing: seq<string>,
    kind: EarningType, amounts: seq<int>)
    requires Lists(Run(orders, config, ops), customer, listing) && |amounts| == |listing|
    requires forall i | 0 <= i < |listing| ::
               amounts[i] == Total(Run(orders, config, ops).earnings, GainsFromByKind(customer, listing[i], kind))
    ensures Sum(amounts) == Total(Run(orders, config, ops).earnings, GainsOfKind(customer, kind))
  {
    var l := Run(orders, config, ops);
    RunIsHonest(orders, config, ops);
    hide Run, Total, Standing;
    forall e | e in l.earnings ensures OfKindAmong(customer, listing, kind)(e) == GainsOfKind(customer, kind)(e) {
      var i :| 0 <= i < |l.earnings| && l.earnings[i] == e;
      assert Grounded(l.referrals, l.earnings[i]);
    }
    ListedByKind(l.earnings, customer, listing, kind, amounts);
    TotalSame(l.earnings, OfKindAmong(customer, listing, kind), GainsOfKind(customer, kind));
  }

  function OfKindAmong(customer: string, listing: seq<string>, kind: EarningType): Filter {
    (e: Earning) => e.referrer == customer && e.status != Revoked && e.referee in listing && e.kind == kind
  }

  lemma {:induction false} ListedByKind(
    es: seq<Earning>, customer: string, listing: seq<string>, kind: EarningType, amounts: seq<int>)
    requires forall i, j | 0 <= i < j < |listing| :: listing[i] != listing[j]
    requires |amounts| == |listing|
    requires forall i | 0 <= i < |listing| :: amounts[i] == Total(es, GainsFromByKind(customer, listing[i], kind))
    ensures Sum(amounts) == Total(es, OfKindAmong(customer, listing, kind))
    decreases |listing|
  {
    if listing == [] {
      TotalOfNone(es, OfKindAmong(customer, listing, kind));
    } else {
      var n := |listing| - 1;
      ListedByKind(es, customer, listing[..n], kind, amounts[..n]);
      assert listing == listing[..n] + [listing[n]];
      TotalSplits(es, OfKindAmong(customer, listing, kind), OfKindAmong(customer, listing[..n], kind),
          GainsFromByKind(customer, listing[n], kind));
    }
  }

  predicate Booked(es: seq<Earning>, order: string, kind: EarningType) {
    exists i :: 0 <= i < |es| && es[i].order == order && es[i].kind == kind
  }

  lemma BookedIff(es: seq<Earning>, order: string, kind: EarningType)
    ensures AlreadyBooked(es, order, kind) <==> Booked(es, order, kind)
  {
    if i :| 0 <= i < |es| && es[i].order == order && es[i].kind == kind {
      assert es[i] in es;
    }
  }

  // ---- Commissions --------------------------------------------------------------------------------------

  /** `fair` is `pct` percent of `net`, to the nearest, halves up. */
  predicate Rounds(fair: int, pct: real, net: int) {
    var exact := net as real * pct / 100.0;
    exact - 0.5 < fair as real <= exact + 0.5
  }

  lemma CommissionRounds(pct: real, net: int)
    ensures Rounds(CommissionOn(pct, net), pct, net)
  {
    assert pct / 100.0 * net as real == net as real * pct / 100.0;
  }

  lemma RoundsOnce(f: int, g: int, pct: real, net: int)
    requires Rounds(f, pct, net) && Rounds(g, pct, net)
    ensures f == g
  {
    var exact := net as real * pct / 100.0;
    assert (f - g) as real < 1.0 && (g - f) as real < 1.0;
  }

  /** The order comes after the qualifying one and within its window of days. */
  predicate EarnsCommission(r: Referral, order: string, o: Order, config: Config) {
    && r.status.Rewarded? && r.qualifiedAt.Some? && r.qualifyingOrder != Some(order)
    && o.createdAt - r.qualifiedAt.value <= config.windowDays * 86_400_000
  }

  /** The earning's rate before the cap: the prime, or the rounded commission. */
  predicate FairAmount(
    fair: int, l: Ledger, orders: map<string, Order>, config: Config, op: Operation, kind: EarningType) {
    && op.PaidOrder? && op.payer in l.referrals && op.order in orders
    && var r, o := l.referrals[op.payer], orders[op.order];
       match kind
       case Prime => r.status.Waiting? && op.giftUsed && o.net >= config.minBasket && fair == config.prime
       case Commission =>
         && EarnsCommission(r, op.order, o, config) && config.commissionPct > 0.0 && o.net > 0
         && Rounds(fair, config.commissionPct, o.net)
  }

  /**
   The operation books this earning: due, for the payer's referrer, at its fair amount or what the cap leaves of
   it.
   */
  predicate Books(l: Ledger, orders: map<string, Order>, config: Config, op: Operation, e: Earning, fair: int) {
    && FairAmount(fair, l, orders, config, op, e.kind) && fair > 0
    && e == Earning(l.referrals[op.payer].referrer, op.payer, e.kind, op.order,
                    UnderCap(l.earnings, op.payer, fair, config.cap), Due)
    && e.amount > 0 && !Booked(l.earnings, op.order, e.kind)
  }

  lemma CreatesIff(l: Ledger, referrer: string, referee: string, order: string, kind: EarningType, raw: int, cap: int)
    ensures var amount := UnderCap(l.earnings, referee, raw, cap);
            CreateEarning(l, referrer, referee, order, kind, raw, cap) ==
              if amount > 0 && !Booked(l.earnings, order, kind)
              then l.(earnings := l.earnings + [Earning(referrer, referee, kind, order, amount, Due)]) else l
  {
    BoundedIs(l.earnings, referee, raw, cap);
    BookedIff(l.earnings, order, kind);
    hide Bounded, UnderCap, AlreadyBooked, Booked;
  }

  /**
   Main result: an operation books an earning if and only if it is a paid order that earns one, and books exactly
   that one.
   */
  lemma AccrualIff(l: Ledger, orders: map<string, Order>, config: Config, op: Operation, e: Earning)
    requires op.PaidOrder?
    ensures var es := Do(l, orders, config, op).earnings;
            && (es == l.earnings || (|es| == |l.earnings| + 1 && es[..|l.earnings|] == l.earnings))
            && (es == l.earnings + [e] <==> exists fair :: Books(l, orders, config, op, e, fair))
  {
    var l' := Do(l, orders, config, op);
    if op.payer in l.referrals && op.order in orders {
      var r, o := l.referrals[op.payer], orders[op.order];
      if r.status.Waiting? {
        PrimeIff(l, orders, config, op, e);
      } else {
        CommissionIff(l, orders, config, op, e);
      }
    }
    hide Do, Books, FairAmount;
  }

  lemma PrimeIff(l: Ledger, orders: map<string, Order>, config: Config, op: Operation, e: Earning)
    requires op.PaidOrder? && op.payer in l.referrals && op.order in orders && l.referrals[op.payer].status.Waiting?
    ensures var es := Do(l, orders, config, op).earnings;
            && (es == l.earnings || (|es| == |l.earnings| + 1 && es[..|l.earnings|] == l.earnings))
            && (es == l.earnings + [e] <==> exists fair :: Books(l, orders, config, op, e, fair))
  {
    var r, o := l.referrals[op.payer], orders[op.order];
    var l1 := Qualify(l, op.payer, op.order, op.now);
    CreatesIff(l1, r.referrer, op.payer, op.order, Prime, config.prime, config.cap);
    var due := op.giftUsed && o.net >= config.minBasket && config.prime > 0
               && UnderCap(l.earnings, op.payer, config.prime, config.cap) > 0 && !Booked(l.earnings, op.order, Prime);
    var it := Earning(r.referrer, op.payer, Prime, op.order, UnderCap(l.earnings, op.payer, config.prime, config.cap),
        Due);
    CappedAtMost(l.earnings, op.payer, config.prime, config.cap);
    hide CreateEarning, UnderCap, Booked, Rounds;
    assert Do(l, orders, config, op).earnings == if due then l.earnings + [it] else l.earnings;
    assert due && e == it ==> Books(l, orders, config, op, e, config.prime);
    Appended(l.earnings, it, e);
  }

  lemma CappedAtMost(es: seq<Earning>, referee: string, amount: int, cap: int)
    ensures UnderCap(es, referee, amount, cap) > 0 ==> amount >= UnderCap(es, referee, amount, cap)
  {
    hide Total;
  }

  lemma Appended(es: seq<Earning>, it: Earning, e: Earning)
    ensures es + [it] == es + [e] <==> it == e
    ensures es != es + [e] && (es + [it])[..|es|] == es && |es + [it]| == |es| + 1
  {
    assert (es + [it])[|es|] == it && (es + [e])[|es|] == e;
  }

  lemma CommissionIff(l: Ledger, orders: map<string, Order>, config: Config, op: Operation, e: Earning)
    requires op.PaidOrder? && op.payer in l.referrals && op.order in orders && !l.referrals[op.payer].status.Waiting?
    ensures var es := Do(l, orders, config, op).earnings;
            && (es == l.earnings || (|es| == |l.earnings| + 1 && es[..|l.earnings|] == l.earnings))
            && (es == l.earnings + [e] <==> exists fair :: Books(l, orders, config, op, e, fair))
  {
    var r, o := l.referrals[op.payer], orders[op.order];
    var fair := CommissionOn(config.commissionPct, o.net);
    CommissionRounds(config.commissionPct, o.net);
    CreatesIff(l, r.referrer, op.payer, op.order, Commission, fair, config.cap);
    CappedAtMost(l.earnings, op.payer, fair, config.cap);
    var due := CommissionDue(r, op.order, o, config);
    assert due <==> EarnsCommission(r, op.order, o, config) && config.commissionPct > 0.0 && o.net > 0 && fair > 0;
    var books := due && UnderCap(l.earnings, op.payer, fair, config.cap) > 0
        && !Booked(l.earnings, op.order, Commission);
    var it := Earning(r.referrer, op.payer, Commission, op.order, UnderCap(l.earnings, op.payer, fair, config.cap),
        Due);
    assert Do(l, orders, config, op).earnings == if books then l.earnings + [it] else l.earnings by {
      hide UnderCap, Booked, CommissionOn, EarnsCommission, CommissionDue, CreateEarning;
    }
    hide CreateEarning, UnderCap, Booked, CommissionOn, EarnsCommission, CommissionDue, Do, Rounds;
    assert books && e == it ==> Books(l, orders, config, op, e, fair);
    forall f | Books(l, orders, config, op, e, f) ensures f == fair {
      RoundsOnce(f, fair, config.commissionPct, o.net);
    }
    Appended(l.earnings, it, e);
  }

  // ---- Every earning has its price ------------------------------------------------------------------------

  /** The `i`-th earning of the run, as it was booked at operation `n`. */
  ghost predicate BookedAt(
    orders: map<string, Order>, config: Config, ops: seq<Operation>, n: nat, i: nat, e: Earning, fair: int)
    requires n < |ops|
  {
    && |Run(orders, config, ops[..n]).earnings| == i
    && Books(Run(orders, config, ops[..n]), orders, config, ops[n], e, fair)
  }

  /**
   Main result: each earning of a reachable ledger was booked by one paid order of the run, at its fair amount, or at
   what the cap then left of it; only its status has changed since.
   */
  lemma {:induction false} EveryEarningHasItsPrice(
    orders: map<string, Order>, config: Config, ops: seq<Operation>, i: nat)
    requires i < |Run(orders, config, ops).earnings|
    ensures var e := Run(orders, config, ops).earnings[i];
            exists n, fair :: 0 <= n < |ops| && BookedAt(orders, config, ops, n, i, e.(status := Due), fair)
  {
    var n := |ops| - 1;
    var before, op := ops[..n], ops[n];
    var l := Run(orders, config, before);
    var e := Run(orders, config, ops).earnings[i];
    if i < |l.earnings| {
      EveryEarningHasItsPrice(orders, config, before, i);
      DoMovesOn(l, orders, config, op);
      var k, fair :| 0 <= k < n && BookedAt(orders, config, before, k, i, l.earnings[i].(status := Due), fair);
      assert before[..k] == ops[..k] && before[k] == ops[k];
      hide Do, Books, Run;
      assert BookedAt(orders, config, ops, k, i, e.(status := Due), fair);
    } else {
      OnlyPaidOrdersBook(l, orders, config, op);
      AccrualIff(l, orders, config, op, e);
      hide Do, Books;
      assert Run(orders, config, ops).earnings == l.earnings + [e];
      var fair :| Books(l, orders, config, op, e, fair);
      BooksDue(l, orders, config, op, e, fair);
      assert e.(status := Due) == e;
      assert BookedAt(orders, config, ops, n, i, e, fair);
    }
  }

  lemma BooksDue(l: Ledger, orders: map<string, Order>, config: Config, op: Operation, e: Earning, fair: int)
    requires Books(l, orders, config, op, e, fair)
    ensures e.status == Due
  {
    hide FairAmount, UnderCap, Booked;
  }

  lemma OnlyPaidOrdersBook(l: Ledger, orders: map<string, Order>, config: Config, op: Operation)
    requires |Do(l, orders, config, op).earnings| > |l.earnings|
    ensures op.PaidOrder?
  {
    hide Accrue, DueTo;
  }

  /**
   Main result: no commission exceeds its percentage of the order, rounded, and no prime the prime of the
   settings.
   */
  lemma AmountsAreFair(orders: map<string, Order>, config: Config, ops: seq<Operation>, i: nat)
    requires i < |Run(orders, config, ops).earnings|
    ensures var e := Run(orders, config, ops).earnings[i];
            match e.kind
            case Prime => 0 < e.amount <= config.prime
            case Commission =>
              && e.order in orders
              && 0 < e.amount && e.amount as real <= orders[e.order].net as real * config.commissionPct / 100.0 + 0.5
  {
    hide Run, Books;
    EveryEarningHasItsPrice(orders, config, ops, i);
    var e := Run(orders, config, ops).earnings[i];
    var n, fair :| 0 <= n < |ops| && BookedAt(orders, config, ops, n, i, e.(status := Due), fair);
    BooksAtMost(Run(orders, config, ops[..n]), orders, config, ops[n], e.(status := Due), fair);
  }

  lemma BooksAtMost(l: Ledger, orders: map<string, Order>, config: Config, op: Operation, e: Earning, fair: int)
    requires Books(l, orders, config, op, e, fair)
    ensures 0 < e.amount && e.order in orders
    ensures match e.kind
            case Prime => e.amount <= config.prime
            case Commission => e.amount as real <= orders[e.order].net as real * config.commissionPct / 100.0 + 0.5
  {
    CappedAtMost(l.earnings, op.payer, fair, config.cap);
    hide UnderCap, Booked, EarnsCommission;
  }

  // ---- Codes and qualification ----------------------------------------------------------------------------

  /** Main result: a code is applied exactly for a customer not yet referred nor served, with somebody else's code. */
  lemma ApplyIff(l: Ledger, referee: string, referrer: Option<string>, hasPaidOrder: bool)
    ensures var (l', r) := Apply(l, referee, referrer, hasPaidOrder);
            && (r.Applied? <==> referee !in l.referrals && referrer.Some? && referrer.value != referee && !hasPaidOrder)
            && (r.AlreadyReferred? <==> referee in l.referrals)
            && (r.UnknownCode? <==> referee !in l.referrals && referrer == None)
            && (r.OwnCode? <==> referee !in l.referrals && referrer == Some(referee))
            && l' == (if r.Applied?
                      then l.(referrals := l.referrals[referee := Referral(referrer.value, Waiting, None, None)])
                          else l)
  {
  }

  /**
   Main result: a paid order, even if interrupted, qualifies exactly a waiting referral whose welcome gift it
   used.
   */
  lemma QualifiesIff(l: Ledger, orders: map<string, Order>, config: Config, op: Operation)
    requires op.PaidOrder? || op.InterruptedOrder?
    ensures var referee := if op.PaidOrder? then op.payer else op.claimant;
            Do(l, orders, config, op).referrals ==
              if referee in l.referrals && l.referrals[referee].status.Waiting? && op.giftUsed && op.order in orders
              then l.referrals[referee := Referral(l.referrals[referee].referrer, Rewarded, Some(op.order),
                  Some(op.now))]
              else l.referrals
  {
    hide Bounded, AlreadyBooked, CommissionDue, CommissionOn;
  }

  // ---- Statuses -------------------------------------------------------------------------------------------

  /** Exactly the earnings chosen turn to a status; the ledger is otherwise the same. */
  ghost predicate Turns(l: Ledger, l': Ledger, chosen: (nat, Earning) -> bool, to: EarningStatus) {
    && l'.referrals == l.referrals && |l'.earnings| == |l.earnings|
    && forall i: nat | i < |l.earnings| ::
         l'.earnings[i] == if chosen(i, l.earnings[i]) then l.earnings[i].(status := to) else l.earnings[i]
  }

  /** Main result: cancelling an order cancels exactly its PENDING and PAYABLE earnings. */
  lemma CancellationEffect(l: Ledger, orders: map<string, Order>, config: Config, order: string)
    ensures Turns(l, Do(l, orders, config, OrderCancelled(order)),
                  (i, e: Earning) => e.order == order && (e.status.Due? || e.status.Payable?), Revoked)
  {
  }

  lemma MarkPayableEffect(l: Ledger, orders: map<string, Order>, config: Config, ids: set<nat>, referrer: string)
    ensures Turns(l, Do(l, orders, config, MarkPayable(ids)), (i, e: Earning) => i in ids && e.status.Due?, Payable)
    ensures Turns(l, Do(l, orders, config, MarkAllPayable(referrer)),
                  (i, e: Earning) => e.referrer == referrer && e.status.Due?, Payable)
  {
  }

  /** Main result: the threshold releases exactly the PENDING earnings of referrers whose PENDING earnings reach it. */
  lemma ThresholdEffect(l: Ledger, orders: map<string, Order>, config: Config)
    ensures Turns(l, Do(l, orders, config, ApplyThreshold),
                  (i, e: Earning) => e.status.Due? && Total(l.earnings, GainsIn(e.referrer, Due)) >= config.threshold,
                      Payable)
  {
    forall i | 0 <= i < |l.earnings|
      ensures DueTo(l.earnings, l.earnings[i].referrer) == Total(l.earnings, GainsIn(l.earnings[i].referrer, Due))
    {
      DueIsPending(l.earnings, l.earnings[i].referrer);
    }
    hide DueTo, Total;
  }

  /** Only what was PAYABLE is paid. */
  lemma MarkPaidEffect(l: Ledger, orders: map<string, Order>, config: Config, ids: set<nat>)
    ensures Turns(l, Do(l, orders, config, MarkPaid(ids)), (i, e: Earning) => i in ids && e.status.Payable?, Paid)
  {
  }
}
