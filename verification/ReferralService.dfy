/** The referral service as it updates referrals and earnings. */
module ReferralService {
  import opened Wrappers
  import opened ReferralRows

  class Referrals {
    var referrals: map<string, Referral>
    var earnings: seq<Earning>
    const orders: map<string, Order>
    const config: Config

    ghost function State(): Ledger
      reads this
    {
      Ledger(referrals, earnings)
    }

    constructor (orders: map<string, Order>, config: Config)
      ensures State() == Ledger(map[], []) && this.orders == orders && this.config == config
    {
      referrals, earnings := map[], [];
      this.orders, this.config := orders, config;
    }

    method ApplyReferralCode(referee: string, referrer: Option<string>, hasPaidOrder: bool) returns (r: ApplyResult)
      modifies this
      ensures (State(), r) == Apply(old(State()), referee, referrer, hasPaidOrder)
      ensures State() == Do(old(State()), orders, config, ApplyCode(referee, referrer, hasPaidOrder))
    {
      if referee in referrals { return AlreadyReferred; }
      if referrer.None? { return UnknownCode; }
      if referrer.value == referee { return OwnCode; }
      if hasPaidOrder { return NotANewCustomer; }
      referrals := referrals[referee := Referral(referrer.value, Waiting, None, None)];
      return Applied;
    }

    /** True when this call won the transition. */
    method QualifyReferral(referee: string, order: string, now: int) returns (won: bool)
      modifies this`referrals
      ensures State() == Qualify(old(State()), referee, order, now)
      ensures won == (referee in old(referrals) && old(referrals)[referee].status.Waiting?)
    {
      if referee !in referrals || referrals[referee].status != Waiting { return false; }
      referrals := referrals[referee :=
        referrals[referee].(status := Rewarded, qualifyingOrder := Some(order), qualifiedAt := Some(now))];
      return true;
    }

    method BookEarning(
      referrer: string, referee: string, order: string, kind: EarningType, raw: int) returns (credited: int)
      modifies this`earnings
      ensures State() == CreateEarning(old(State()), referrer, referee, order, kind, raw, config.cap)
      ensures credited == if State() == old(State()) then 0 else Bounded(old(earnings), referee, raw, config.cap)
    {
      var amount := raw;
      if config.cap > 0 {
        var already := Standing(earnings, referee);
        var remaining := config.cap - already;
        if remaining <= 0 { return 0; }
        if remaining < amount { amount := remaining; }
      }
      if amount <= 0 { return 0; }
      if AlreadyBooked(earnings, order, kind) { return 0; }
      earnings := earnings + [Earning(referrer, referee, kind, order, amount, Due)];
      return amount;
    }

    method AccrueForPaidOrder(referee: string, orderId: string, giftUsed: bool, now: int)
      modifies this
      ensures State() == Do(old(State()), orders, config, PaidOrder(referee, orderId, giftUsed, now))
    {
      if referee !in referrals { return; }
      var referral := referrals[referee];
      if orderId !in orders { return; }
      var order := orders[orderId];
      if referral.status == Waiting && !giftUsed { return; }
      var justQualified := QualifyReferral(referee, orderId, now);
      if justQualified {
        if order.net >= config.minBasket && config.prime > 0 {
          var _ := BookEarning(referral.referrer, referee, orderId, Prime, config.prime);
        }
      } else {
        var reread := referrals[referee];
        if reread.status == Rewarded && reread.qualifiedAt.Some? && reread.qualifyingOrder != Some(orderId)
           && config.commissionPct > 0.0 && order.net > 0 {
          var windowEnd := reread.qualifiedAt.value + config.windowDays * DAY_MS;
          if order.createdAt <= windowEnd {
            var commission := CommissionOn(config.commissionPct, order.net);
            if commission > 0 {
              var _ := BookEarning(reread.referrer, referee, orderId, Commission, commission);
            }
          }
        }
      }
    }

    method RevokeEarningsForCancelledOrder(order: string)
      modifies this`earnings
      ensures State() == Do(old(State()), orders, config, OrderCancelled(order))
    {
      var es := earnings;
      earnings := seq(|es|, i requires 0 <= i < |es| =>
        if es[i].order == order && (es[i].status == Due || es[i].status == Payable) then es[i].(status := Revoked)
            else es[i]);
    }

    method AdminMarkPayable(ids: set<nat>)
      modifies this`earnings
      ensures State() == Do(old(State()), orders, config, MarkPayable(ids))
    {
      var es := earnings;
      earnings := seq(|es|, i requires 0 <= i < |es| =>
        if i in ids && es[i].status == Due then es[i].(status := Payable) else es[i]);
    }

    method AdminMarkAllPayable(referrer: string)
      modifies this`earnings
      ensures State() == Do(old(State()), orders, config, MarkAllPayable(referrer))
    {
      var es := earnings;
      earnings := seq(|es|, i requires 0 <= i < |es| =>
        if es[i].referrer == referrer && es[i].status == Due then es[i].(status := Payable) else es[i]);
    }

    method AdminApplyPayoutThreshold()
      modifies this`earnings
      ensures State() == Do(old(State()), orders, config, Operation.ApplyThreshold)
    {
      var es := earnings;
      var eligible := set e | e in es && e.status == Due && DueTo(es, e.referrer) >= config.threshold :: e.referrer;
      if eligible == {} {
        forall i | 0 <= i < |es| && es[i].status == Due ensures DueTo(es, es[i].referrer) < config.threshold {
          assert es[i].referrer !in eligible;
        }
        assert es == Do(old(State()), orders, config, Operation.ApplyThreshold).earnings;
        return;
      }
      earnings := seq(|es|, i requires 0 <= i < |es| =>
        if es[i].referrer in eligible && es[i].status == Due then es[i].(status := Payable) else es[i]);
    }

    method AdminMarkPaid(ids: set<nat>)
      modifies this`earnings
      ensures State() == Do(old(State()), orders, config, MarkPaid(ids))
    {
      var es := earnings;
      earnings := seq(|es|, i requires 0 <= i < |es| =>
        if i in ids && es[i].status == Payable then es[i].(status := Paid) else es[i]);
    }
  }
}
