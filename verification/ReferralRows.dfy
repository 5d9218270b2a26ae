/**
 The referral ledger (src/modules/referral/referral.service.ts): referrals by referee, earnings in
 order of creation (an earning's id is its position), amounts in whole FCFA, times in milliseconds.
 */
module ReferralRows {
  import opened Wrappers

  datatype ReferralStatus = Waiting | Rewarded | Annulled

  datatype EarningStatus = Due | Payable | Paid | Revoked

  datatype EarningType = Prime | Commission

  datatype Referral = Referral(referrer: string, status: ReferralStatus, qualifyingOrder: Option<string>,
      qualifiedAt: Option<int>)

  datatype Earning = Earning(referrer: string, referee: string, kind: EarningType, order: string, amount: int,
      status: EarningStatus)

  datatype Ledger = Ledger(referrals: map<string, Referral>, earnings: seq<Earning>)

  datatype Order = Order(net: int, createdAt: int)

  datatype Config = Config(prime: int, commissionPct: real, windowDays: int, cap: int, minBasket: int, threshold: int)

  const DAY_MS := 24 * 60 * 60 * 1000

  /** What the referee's earnings that still stand add up to. */
  function Standing(earnings: seq<Earning>, referee: string): int {
    if earnings == [] then 0
    else
      var last := earnings[|earnings| - 1];
      Standing(earnings[..|earnings| - 1], referee)
      + if last.referee == referee && last.status != Revoked then last.amount else 0
  }

  predicate AlreadyBooked(earnings: seq<Earning>, order: string, kind: EarningType) {
    exists e :: e in earnings && e.order == order && e.kind == kind
  }

  /** The amount `createEarning` would book: what is left under the cap, 0 when nothing is. */
  function Bounded(earnings: seq<Earning>, referee: string, raw: int, cap: int): int {
    if cap <= 0 then raw
    else
      var remaining := cap - Standing(earnings, referee);
      if remaining <= 0 then 0 else if raw <= remaining then raw else remaining
  }

  function CreateEarning(
    l: Ledger, referrer: string, referee: string, order: string, kind: EarningType, raw: int, cap: int): Ledger {
    var amount := Bounded(l.earnings, referee, raw, cap);
    if amount <= 0 || AlreadyBooked(l.earnings, order, kind) then l
    else l.(earnings := l.earnings + [Earning(referrer, referee, kind, order, amount, Due)])
  }

  /** The atomic claim PENDING -> REWARDED. */
  function Qualify(l: Ledger, referee: string, order: string, now: int): Ledger {
    if referee in l.referrals && l.referrals[referee].status.Waiting?
    then l.(referrals := l.referrals[referee :=
           l.referrals[referee].(status := Rewarded, qualifyingOrder := Some(order), qualifiedAt := Some(now))])
    else l
  }

  /** `Math.round((pct / 100) * net)` */
  function CommissionOn(pct: real, net: int): int {
    (pct / 100.0 * net as real + 0.5).Floor
  }

  predicate CommissionDue(r: Referral, orderId: string, order: Order, config: Config) {
    && r.status.Rewarded? && r.qualifiedAt.Some? && r.qualifyingOrder != Some(orderId)
    && config.commissionPct > 0.0 && order.net > 0
    && order.createdAt <= r.qualifiedAt.value + config.windowDays * DAY_MS
    && CommissionOn(config.commissionPct, order.net) > 0
  }

  /** `giftUsed` says whether the referee's welcome gift was used on this order. */
  function Accrue(
    l: Ledger, orders: map<string, Order>, config: Config, referee: string, orderId: string, giftUsed: bool,
    now: int): Ledger {
    if referee !in l.referrals || orderId !in orders then l
    else
      var r, order := l.referrals[referee], orders[orderId];
      if r.status.Waiting? && !giftUsed then l
      else if r.status.Waiting? then
        var l' := Qualify(l, referee, orderId, now);
        if order.net >= config.minBasket && config.prime > 0
        then CreateEarning(l', r.referrer, referee, orderId, Prime, config.prime, config.cap) else l'
      else if CommissionDue(r, orderId, order, config) then
        CreateEarning(l, r.referrer, referee, orderId, Commission, CommissionOn(config.commissionPct, order.net),
            config.cap)
      else l
  }

  /** Turns the statuses of some earnings. */
  function Turn(
    earnings: seq<Earning>, chosen: (nat, Earning) -> bool, from: set<EarningStatus>,
    to: EarningStatus): (r: seq<Earning>)
    ensures |r| == |earnings|
  {
    seq(|earnings|, i requires 0 <= i < |earnings| =>
      if chosen(i, earnings[i]) && earnings[i].status in from then earnings[i].(status := to) else earnings[i])
  }

  function DueTo(earnings: seq<Earning>, referrer: string): int {
    if earnings == [] then 0
    else
      var last := earnings[|earnings| - 1];
      DueTo(earnings[..|earnings| - 1], referrer)
      + if last.referrer == referrer && last.status == Due then last.amount else 0
  }

  datatype ApplyResult = Applied | AlreadyReferred | UnknownCode | OwnCode | NotANewCustomer

  function Apply(l: Ledger, referee: string, referrer: Option<string>, hasPaidOrder: bool): (Ledger, ApplyResult) {
    if referee in l.referrals then (l, AlreadyReferred)
    else if referrer.None? then (l, UnknownCode)
    else if referrer.value == referee then (l, OwnCode)
    else if hasPaidOrder then (l, NotANewCustomer)
    else (l.(referrals := l.referrals[referee := Referral(referrer.value, Waiting, None, None)]), Applied)
  }

  /** The process dies right after the qualification claim: nothing else of the accrual happens. */
  function ClaimOnly(
    l: Ledger, orders: map<string, Order>, referee: string, orderId: string, giftUsed: bool, now: int): Ledger {
    if orderId in orders && giftUsed then Qualify(l, referee, orderId, now) else l
  }

  datatype Operation =
    | ApplyCode(referee: string, referrer: Option<string>, hasPaidOrder: bool)
    | PaidOrder(payer: string, order: string, giftUsed: bool, now: int)
    | InterruptedOrder(claimant: string, order: string, giftUsed: bool, now: int)
    | OrderCancelled(order: string)
    | MarkPayable(ids: set<nat>)
    | MarkAllPayable(of: string)
    | ApplyThreshold
    | MarkPaid(ids: set<nat>)

  /** One operation, alone. */
  function Do(l: Ledger, orders: map<string, Order>, config: Config, op: Operation): Ledger {
    var es := l.earnings;
    match op
    case ApplyCode(referee, referrer, paid) => Apply(l, referee, referrer, paid).0
    case PaidOrder(referee, order, giftUsed, now) => Accrue(l, orders, config, referee, order, giftUsed, now)
    case InterruptedOrder(referee, order, giftUsed, now) => ClaimOnly(l, orders, referee, order, giftUsed, now)
    case OrderCancelled(order) =>
      l.(earnings := Turn(es, (i, e: Earning) => e.order == order, {Due, Payable}, Revoked))
    case MarkPayable(ids) => l.(earnings := Turn(es, (i, e: Earning) => i in ids, {Due}, Payable))
    case MarkAllPayable(referrer) => l.(earnings := Turn(es, (i, e: Earning) => e.referrer == referrer, {Due}, Payable))
    case ApplyThreshold =>
      l.(earnings := Turn(es, (i, e: Earning) => DueTo(es, e.referrer) >= config.threshold, {Due}, Payable))
    case MarkPaid(ids) => l.(earnings := Turn(es, (i, e: Earning) => i in ids, {Payable}, Paid))
  }

  /** A serial run from an empty ledger. */
  function Run(orders: map<string, Order>, config: Config, ops: seq<Operation>): Ledger {
    if ops == [] then Ledger(map[], [])
    else Do(Run(orders, config, ops[..|ops| - 1]), orders, config, ops[|ops| - 1])
  }
}
