/** What every serial run of the referral operations keeps. */
module ReferralLedger {
  import opened Wrappers
  import opened ReferralRows

  // ---- How rows may change ------------------------------------------------------------------

  ghost predicate StatusMayBecome(s: EarningStatus, s': EarningStatus) {
    s' == s || s.Due? || (s.Payable? && !s'.Due?)
  }

  /** Rows of `a` are still there in `b`: same amounts and owners, PAID and CANCELLED untouched. */
  ghost predicate Evolves(a: seq<Earning>, b: seq<Earning>) {
    && |a| <= |b|
    && forall i | 0 <= i < |a| :: b[i] == a[i].(status := b[i].status) && StatusMayBecome(a[i].status, b[i].status)
  }

  /** A qualified referral never changes, and no referral changes hands. */
  ghost predicate ReferralsStay(a: map<string, Referral>, b: map<string, Referral>) {
    forall r | r in a ::
      r in b && b[r].referrer == a[r].referrer && (a[r].status.Rewarded? ==> b[r] == a[r])
  }

  ghost predicate MovesOn(l: Ledger, l': Ledger) {
    Evolves(l.earnings, l'.earnings) && ReferralsStay(l.referrals, l'.referrals)
  }

  lemma DoMovesOn(l: Ledger, orders: map<string, Order>, config: Config, op: Operation)
    ensures MovesOn(l, Do(l, orders, config, op))
  {
    hide Bounded, AlreadyBooked, CommissionDue, CommissionOn, DueTo;
  }

  /** Main result: over a serial run rows only move on; PAID and CANCELLED earnings and all amounts are for good. */
  lemma {:induction false} RunMovesOn(orders: map<string, Order>, config: Config, ops: seq<Operation>, i: nat)
    requires i <= |ops|
    ensures MovesOn(Run(orders, config, ops[..i]), Run(orders, config, ops))
    decreases |ops|
  {
    hide Do;
    if i == |ops| {
      assert ops[..i] == ops;
    } else {
      var n := |ops| - 1;
      RunMovesOn(orders, config, ops[..n], i);
      assert ops[..n][..i] == ops[..i];
      DoMovesOn(Run(orders, config, ops[..n]), orders, config, ops[n]);
    }
  }

  // ---- What the ledger always satisfies --------------------------------------------------------

  /** An earning belongs to a qualified referral; only the qualifying order gives a PRIME, and nothing else. */
  ghost predicate Grounded(referrals: map<string, Referral>, e: Earning) {
    && e.referee in referrals && e.amount > 0
    && referrals[e.referee].status.Rewarded? && referrals[e.referee].referrer == e.referrer
    && (e.kind.Prime? <==> referrals[e.referee].qualifyingOrder == Some(e.order))
  }

  ghost predicate AllGrounded(l: Ledger) {
    forall i | 0 <= i < |l.earnings| :: Grounded(l.referrals, l.earnings[i])
  }

  /** The unique index on (order, type). */
  ghost predicate BookedOnce(earnings: seq<Earning>) {
    forall i, j | 0 <= i < j < |earnings| :: earnings[i].order != earnings[j].order
        || earnings[i].kind != earnings[j].kind
  }

  ghost predicate UnderCap(earnings: seq<Earning>, cap: int) {
    cap > 0 ==> forall r :: Standing(earnings, r) <= cap
  }

  ghost predicate Honest(l: Ledger, cap: int) {
    AllGrounded(l) && BookedOnce(l.earnings) && UnderCap(l.earnings, cap)
  }

  lemma {:induction false} EvolvingLowersStanding(a: seq<Earning>, b: seq<Earning>, r: string)
    requires Evolves(a, b) && |a| == |b| && forall i | 0 <= i < |a| :: a[i].amount > 0
    ensures Standing(b, r) <= Standing(a, r)
    decreases |a|
  {
    if a != [] {
      EvolvingLowersStanding(a[..|a| - 1], b[..|a| - 1], r);
    }
  }

  lemma BookingIsHonest(l: Ledger, referee: string, order: string, kind: EarningType, raw: int, cap: int)
    requires Honest(l, cap)
    requires referee in l.referrals && l.referrals[referee].status.Rewarded?
    requires kind.Prime? <==> l.referrals[referee].qualifyingOrder == Some(order)
    ensures Honest(CreateEarning(l, l.referrals[referee].referrer, referee, order, kind, raw, cap), cap)
  {
    var l' := CreateEarning(l, l.referrals[referee].referrer, referee, order, kind, raw, cap);
    if l' != l {
      var added := l'.earnings[|l.earnings|];
      assert l'.earnings[..|l'.earnings| - 1] == l.earnings;
      assert forall i | 0 <= i < |l.earnings| :: l'.earnings[i] == l.earnings[i] && l.earnings[i] in l.earnings;
      if cap > 0 {
        forall r ensures Standing(l'.earnings, r) <= cap {
          assert Standing(l.earnings, r) <= cap;
        }
      }
      hide Standing;
    }
  }

  lemma QualifyingIsHonest(l: Ledger, referee: string, order: string, now: int, cap: int)
    requires Honest(l, cap)
    ensures Honest(Qualify(l, referee, order, now), cap)
  {
    hide Standing;
  }

  lemma AccruingIsHonest(
    l: Ledger, orders: map<string, Order>, config: Config, referee: string, order: string, giftUsed: bool, now: int)
    requires Honest(l, config.cap)
    ensures Honest(Accrue(l, orders, config, referee, order, giftUsed, now), config.cap)
  {
    hide Honest, CommissionOn;
    if referee in l.referrals && order in orders {
      var r := l.referrals[referee];
      if r.status.Waiting? {
        QualifyingIsHonest(l, referee, order, now, config.cap);
        BookingIsHonest(Qualify(l, referee, order, now), referee, order, Prime, config.prime, config.cap);
      } else if CommissionDue(r, order, orders[order], config) {
        BookingIsHonest(l, referee, order, Commission, CommissionOn(config.commissionPct, orders[order].net),
            config.cap);
      }
      hide CreateEarning, Qualify;
    }
  }

  lemma TurningIsHonest(l: Ledger, es: seq<Earning>, cap: int)
    requires Honest(l, cap) && Evolves(l.earnings, es) && |es| == |l.earnings|
    ensures Honest(l.(earnings := es), cap)
  {
    if cap > 0 {
      forall r ensures Standing(es, r) <= cap {
        EvolvingLowersStanding(l.earnings, es, r);
      }
    }
    hide Standing;
  }

  lemma DoIsHonest(l: Ledger, orders: map<string, Order>, config: Config, op: Operation)
    requires Honest(l, config.cap)
    ensures Honest(Do(l, orders, config, op), config.cap)
  {
    match op {
      case ApplyCode(_, _, _) => hide Standing;
      case PaidOrder(referee, order, giftUsed, now) =>
        AccruingIsHonest(l, orders, config, referee, order, giftUsed, now);
        hide Honest, Accrue;
      case InterruptedOrder(referee, order, _, now) =>
        QualifyingIsHonest(l, referee, order, now, config.cap);
        hide Honest, Qualify;
      case _ =>
        DoMovesOn(l, orders, config, op);
        hide Honest, DueTo;
        TurningIsHonest(l, Do(l, orders, config, op).earnings, config.cap);
    }
  }

  lemma {:induction false} RunIsHonest(orders: map<string, Order>, config: Config, ops: seq<Operation>)
    ensures Honest(Run(orders, config, ops), config.cap)
  {
    hide Do;
    if ops != [] {
      var n := |ops| - 1;
      RunIsHonest(orders, config, ops[..n]);
      DoIsHonest(Run(orders, config, ops[..n]), orders, config, ops[n]);
      hide Honest;
    }
  }

  /** Main result: with a positive cap, what stands for a referee never exceeds it. */
  lemma CapHolds(orders: map<string, Order>, config: Config, ops: seq<Operation>, referee: string)
    requires config.cap > 0
    ensures Standing(Run(orders, config, ops).earnings, referee) <= config.cap
  {
    RunIsHonest(orders, config, ops);
    hide Run, Standing;
  }

  /** Main result: a referral has at most one PRIME, on its qualifying order, and that order gives it nothing else. */
  lemma OnePrime(orders: map<string, Order>, config: Config, ops: seq<Operation>, i: nat, j: nat)
    requires var es := Run(orders, config, ops).earnings;
             i < |es| && j < |es| && es[i].referee == es[j].referee && es[i].kind.Prime?
    ensures var l := Run(orders, config, ops);
            && l.earnings[i].referee in l.referrals
            && l.referrals[l.earnings[i].referee].qualifyingOrder == Some(l.earnings[i].order)
            && (i != j ==> l.earnings[j].kind.Commission? && l.earnings[j].order != l.earnings[i].order)
  {
    RunIsHonest(orders, config, ops);
    hide Run, Standing;
    var l := Run(orders, config, ops);
    assert Grounded(l.referrals, l.earnings[i]) && Grounded(l.referrals, l.earnings[j]);
  }

  // ---- Replays ------------------------------------------------------------------------------------

  lemma BookingTwice(l: Ledger, referrer: string, referee: string, order: string, kind: EarningType, raw: int, cap: int)
    ensures var l' := CreateEarning(l, referrer, referee, order, kind, raw, cap);
            CreateEarning(l', referrer, referee, order, kind, raw, cap) == l'
  {
    hide Standing;
    var l' := CreateEarning(l, referrer, referee, order, kind, raw, cap);
    if l' != l {
      assert l'.earnings[|l.earnings|] in l'.earnings;
    }
  }

  /** Main result: accruing the same order again, at any later time, changes nothing, in any ledger. */
  lemma AccrualReplay(
    l: Ledger, orders: map<string, Order>, config: Config, referee: string, order: string, giftUsed: bool, now: int,
    later: int)
    ensures var l' := Accrue(l, orders, config, referee, order, giftUsed, now);
            Accrue(l', orders, config, referee, order, giftUsed, later) == l'
  {
    hide CommissionOn;
    if referee in l.referrals && order in orders && CommissionDue(l.referrals[referee], order, orders[order], config) {
      BookingTwice(l, l.referrals[referee].referrer, referee, order, Commission,
                   CommissionOn(config.commissionPct, orders[order].net), config.cap);
    }
    hide Bounded, AlreadyBooked;
  }

  // ---- A crash between the claim and the PRIME ------------------------------------------------------

  /** The accrual of this order would claim the referral and book its PRIME. */
  predicate PrimeDue(l: Ledger, orders: map<string, Order>, config: Config, referee: string, order: string) {
    && referee in l.referrals && l.referrals[referee].status.Waiting?
    && order in orders && orders[order].net >= config.minBasket && config.prime > 0
    && Bounded(l.earnings, referee, config.prime, config.cap) > 0 && !AlreadyBooked(l.earnings, order, Prime)
  }

  /** Main result: replaying the order after the crash repairs everything if and only if no PRIME was due. */
  lemma ReplayRepairsIff(
    l: Ledger, orders: map<string, Order>, config: Config, referee: string, order: string, giftUsed: bool, now: int,
    later: int)
    ensures var crashed := ClaimOnly(l, orders, referee, order, giftUsed, now);
            Accrue(crashed, orders, config, referee, order, giftUsed, later)
            == Accrue(l, orders, config, referee, order, giftUsed, now)
            <==> !(giftUsed && PrimeDue(l, orders, config, referee, order))
  {
    hide Bounded, AlreadyBooked, CommissionOn;
  }

  /** Any fresh referral on an eligible order is such a case. */
  lemma PrimeCanBeDue(orders: map<string, Order>, config: Config, referee: string, referrer: string, order: string)
    requires referee != referrer && config.prime > 0 && order in orders && orders[order].net >= config.minBasket
    ensures PrimeDue(Run(orders, config, [ApplyCode(referee, Some(referrer), false)]), orders, config, referee, order)
  {
    var apply := ApplyCode(referee, Some(referrer), false);
    assert [apply][..0] == [];
  }

  ghost predicate HasNoPrime(l: Ledger, referee: string) {
    && referee in l.referrals && l.referrals[referee].status.Rewarded?
    && forall i | 0 <= i < |l.earnings| && l.earnings[i].referee == referee :: l.earnings[i].kind.Commission?
  }

  lemma DoAddsNoPrime(l: Ledger, orders: map<string, Order>, config: Config, op: Operation, referee: string)
    requires HasNoPrime(l, referee)
    ensures HasNoPrime(Do(l, orders, config, op), referee)
  {
    hide Bounded, AlreadyBooked, CommissionDue, CommissionOn, DueTo;
  }

  lemma {:induction false} RunAddsNoPrime(
    orders: map<string, Order>, config: Config, ops: seq<Operation>, later: seq<Operation>, referee: string)
    requires HasNoPrime(Run(orders, config, ops), referee)
    ensures HasNoPrime(Run(orders, config, ops + later), referee)
    decreases |later|
  {
    if later == [] {
      assert ops + later == ops;
    } else {
      var n := |later| - 1;
      RunAddsNoPrime(orders, config, ops, later[..n], referee);
      assert (ops + later)[..|ops + later| - 1] == ops + later[..n];
      DoAddsNoPrime(Run(orders, config, ops + later[..n]), orders, config, later[n], referee);
      hide Do, HasNoPrime;
    }
  }

  /** Main result: after the crash, no later run ever holds a PRIME of that referee, though one was due. */
  lemma PrimeIsLostForGood(
    orders: map<string, Order>, config: Config, ops: seq<Operation>, crash: Operation, later: seq<Operation>)
    requires crash.InterruptedOrder? && crash.giftUsed
    requires PrimeDue(Run(orders, config, ops), orders, config, crash.claimant, crash.order)
    ensures var paid := PaidOrder(crash.claimant, crash.order, true, crash.now);
            var booked := Run(orders, config, ops + [paid]).earnings;
            && booked != [] && booked[|booked| - 1].referee == crash.claimant && booked[|booked| - 1].kind.Prime?
    ensures HasNoPrime(Run(orders, config, ops + [crash] + later), crash.claimant)
  {
    var l := Run(orders, config, ops);
    var paid := PaidOrder(crash.claimant, crash.order, true, crash.now);
    RunIsHonest(orders, config, ops);
    assert (ops + [paid])[..|ops|] == ops && (ops + [crash])[..|ops|] == ops;
    assert Run(orders, config, ops + [paid]) == Do(l, orders, config, paid);
    assert Run(orders, config, ops + [crash]) == Do(l, orders, config, crash);
    hide Run, Bounded, AlreadyBooked, CommissionDue, CommissionOn, DueTo, BookedOnce, UnderCap;
    forall i | 0 <= i < |l.earnings| ensures l.earnings[i].referee != crash.claimant {
      assert Grounded(l.referrals, l.earnings[i]);
    }
    RunAddsNoPrime(orders, config, ops + [crash], later, crash.claimant);
  }
}
