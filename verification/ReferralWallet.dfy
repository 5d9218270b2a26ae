/**
 The ambassador dashboards (src/modules/referral/referral.service.ts): the wallet, the mobile screen and
 the admin list are three separate computations over the same earnings, and must tell the same story.
 */
module ReferralWallet {
  import opened ReferralRows
  import opened ReferralLedger

  type Filter = Earning -> bool

  /** `_sum.amount` of the rows a `where` keeps. */
  function Total(es: seq<Earning>, keep: Filter): int {
    if es == [] then 0
    else
      var last := es[|es| - 1];
      Total(es[..|es| - 1], keep) + if keep(last) then last.amount else 0
  }

  function Gains(customer: string): Filter {
    (e: Earning) => e.referrer == customer && e.status != Revoked
  }

  function GainsFrom(customer: string, referee: string): Filter {
    (e: Earning) => e.referrer == customer && e.status != Revoked && e.referee == referee
  }

  function GainsFromByKind(customer: string, referee: string, kind: EarningType): Filter {
    (e: Earning) => e.referrer == customer && e.status != Revoked && e.referee == referee && e.kind == kind
  }

  function GainsOfKind(customer: string, kind: EarningType): Filter {
    (e: Earning) => e.referrer == customer && e.status != Revoked && e.kind == kind
  }

  function GainsIn(customer: string, status: EarningStatus): Filter {
    (e: Earning) => e.referrer == customer && e.status == status
  }

  lemma {:induction false} TotalSplits(es: seq<Earning>, whole: Filter, part: Filter, rest: Filter)
    requires forall e | e in es :: whole(e) == (part(e) || rest(e)) && !(part(e) && rest(e))
    ensures Total(es, whole) == Total(es, part) + Total(es, rest)
  {
    if es != [] {
      TotalSplits(es[..|es| - 1], whole, part, rest);
      assert es[|es| - 1] in es;
    }
  }

  lemma {:induction false} TotalSame(es: seq<Earning>, p: Filter, q: Filter)
    requires forall e | e in es :: p(e) == q(e)
    ensures Total(es, p) == Total(es, q)
  {
    if es != [] {
      TotalSame(es[..|es| - 1], p, q);
      assert es[|es| - 1] in es;
    }
  }

  lemma {:induction false} TotalOfNone(es: seq<Earning>, p: Filter)
    requires forall e | e in es :: !p(e)
    ensures Total(es, p) == 0
  {
    if es != [] {
      TotalOfNone(es[..|es| - 1], p);
      assert es[|es| - 1] in es;
    }
  }

  function Sum(xs: seq<int>): int {
    if xs == [] then 0 else Sum(xs[..|xs| - 1]) + xs[|xs| - 1]
  }

  function Get(m: map<string, int>, k: string): int {
    if k in m then m[k] else 0
  }

  // ---- The wallet ----------------------------------------------------------------------------------

  datatype Wallet = Wallet(gains: seq<int>, prime: int, commission: int, payable: int, paid: int)

  /** What the wallet shows a customer, for the referees in the order listed. */
  ghost predicate Shows(es: seq<Earning>, customer: string, listing: seq<string>, w: Wallet) {
    && |w.gains| == |listing|
    && (forall i | 0 <= i < |listing| :: w.gains[i] == Total(es, GainsFrom(customer, listing[i])))
    && w.prime == Total(es, GainsOfKind(customer, Prime))
    && w.commission == Total(es, GainsOfKind(customer, Commission))
    && w.payable == Total(es, GainsIn(customer, Due)) + Total(es, GainsIn(customer, Payable))
    && w.paid == Total(es, GainsIn(customer, Paid))
  }

  /** The wallet, whatever the rows: its two breakdowns of the gains agree. */
  method Dashboard(earnings: seq<Earning>, customer: string, listing: seq<string>) returns (w: Wallet)
    ensures Shows(earnings, customer, listing, w)
    ensures w.prime + w.commission == w.payable + w.paid == Total(earnings, Gains(customer))
  {
    var gains: map<string, int> := map[];
    var prime, commission, payable, paid := 0, 0, 0, 0;
    for n := 0 to |earnings|
      invariant forall r :: Get(gains, r) == Total(earnings[..n], GainsFrom(customer, r))
      invariant prime == Total(earnings[..n], GainsOfKind(customer, Prime))
      invariant commission == Total(earnings[..n], GainsOfKind(customer, Commission))
      invariant payable == Total(earnings[..n], GainsIn(customer, Due))
                 + Total(earnings[..n], GainsIn(customer, Payable))
      invariant paid == Total(earnings[..n], GainsIn(customer, Paid))
      invariant prime + commission == payable + paid == Total(earnings[..n], Gains(customer))
    {
      var e := earnings[n];
      assert earnings[..n + 1][..n] == earnings[..n];
      if e.referrer == customer && e.status != Revoked {
        gains := gains[e.referee := Get(gains, e.referee) + e.amount];
        if e.kind == Prime { prime := prime + e.amount; } else { commission := commission + e.amount; }
        if e.status == Paid { paid := paid + e.amount; } else { payable := payable + e.amount; }
      }
    }
    assert earnings[..|earnings|] == earnings;
    w := Wallet(seq(|listing|, i requires 0 <= i < |listing| => Get(gains, listing[i])), prime, commission, payable,
        paid);
  }

  /** The customer's referrals, each once, in any order. */
  ghost predicate Lists(l: Ledger, customer: string, listing: seq<string>) {
    && (forall i, j | 0 <= i < j < |listing| :: listing[i] != listing[j])
    && (forall r :: r in listing <==> r in l.referrals && l.referrals[r].referrer == customer)
  }

  function GainsAmong(customer: string, listing: seq<string>): Filter {
    (e: Earning) => e.referrer == customer && e.status != Revoked && e.referee in listing
  }

  lemma {:induction false} ListedGains(es: seq<Earning>, customer: string, listing: seq<string>, gains: seq<int>)
    requires forall i, j | 0 <= i < j < |listing| :: listing[i] != listing[j]
    requires |gains| == |listing|
    requires forall i | 0 <= i < |listing| :: gains[i] == Total(es, GainsFrom(customer, listing[i]))
    ensures Sum(gains) == Total(es, GainsAmong(customer, listing))
    decreases |listing|
  {
    if listing == [] {
      TotalOfNone(es, GainsAmong(customer, listing));
    } else {
      var n := |listing| - 1;
      ListedGains(es, customer, listing[..n], gains[..n]);
      assert listing == listing[..n] + [listing[n]];
      TotalSplits(es, GainsAmong(customer, listing), GainsAmong(customer, listing[..n]),
          GainsFrom(customer, listing[n]));
    }
  }

  /** Main result: in every reachable ledger, no gain is missing from the listed referees and none is shown twice. */
  lemma WalletAddsUp(
    orders: map<string, Order>, config: Config, ops: seq<Operation>, customer: string, listing: seq<string>, w: Wallet)
    requires Lists(Run(orders, config, ops), customer, listing)
    requires Shows(Run(orders, config, ops).earnings, customer, listing, w)
    ensures Sum(w.gains) == w.prime + w.commission == w.payable + w.paid
  {
    var l := Run(orders, config, ops);
    RunIsHonest(orders, config, ops);
    hide Run, Total, Standing;
    var es := l.earnings;
    forall e | e in es ensures GainsAmong(customer, listing)(e) == Gains(customer)(e) {
      var i :| 0 <= i < |es| && es[i] == e;
      assert Grounded(l.referrals, es[i]);
    }
    ListedGains(es, customer, listing, w.gains);
    TotalSame(es, GainsAmong(customer, listing), Gains(customer));
    TotalSplits(es, Gains(customer), GainsOfKind(customer, Prime), GainsOfKind(customer, Commission));
    BalancesAddUp(es, customer);
  }

  function Unpaid(customer: string): Filter {
    (e: Earning) => e.referrer == customer && (e.status == Due || e.status == Payable)
  }

  lemma BalancesAddUp(es: seq<Earning>, customer: string)
    ensures Total(es, Gains(customer))
         == Total(es, GainsIn(customer, Due)) + Total(es, GainsIn(customer, Payable))
             + Total(es, GainsIn(customer, Paid))
  {
    hide Total;
    forall e | e in es ensures Gains(customer)(e) == (Unpaid(customer)(e) || GainsIn(customer, Paid)(e)) {
      match e.status { case Due => case Payable => case Paid => case Revoked => }
    }
    TotalSplits(es, Gains(customer), Unpaid(customer), GainsIn(customer, Paid));
    TotalSplits(es, Unpaid(customer), GainsIn(customer, Due), GainsIn(customer, Payable));
  }

  /** Main result: with a cap, no line of the wallet exceeds it. */
  lemma NoLineAboveCap(
    orders: map<string, Order>, config: Config, ops: seq<Operation>, customer: string, referee: string)
    requires config.cap > 0
    ensures Total(Run(orders, config, ops).earnings, GainsFrom(customer, referee)) <= config.cap
  {
    var es := Run(orders, config, ops).earnings;
    RunIsHonest(orders, config, ops);
    CapHolds(orders, config, ops, referee);
    hide Run;
    forall i | 0 <= i < |es| ensures es[i].amount > 0 {
      assert Grounded(Run(orders, config, ops).referrals, es[i]);
    }
    PartOfStanding(es, customer, referee);
  }

  lemma {:induction false} PartOfStanding(es: seq<Earning>, customer: string, referee: string)
    requires forall i | 0 <= i < |es| :: es[i].amount > 0
    ensures Total(es, GainsFrom(customer, referee)) <= Standing(es, referee)
  {
    if es != [] {
      var last := es[|es| - 1];
      assert last.amount > 0;
      PartOfStanding(es[..|es| - 1], customer, referee);
      assert GainsFrom(customer, referee)(last) ==> last.referee == referee && last.status != Revoked by {
        hide Total, Standing;
      }
    }
  }

  // ---- groupBy -------------------------------------------------------------------------------------

  datatype Group<K> = Group(key: K, sum: int)

  function Grouped<K(==)>(key: Earning -> K, keep: Filter, k: K): Filter {
    (e: Earning) => keep(e) && key(e) == k
  }

  /** What the database answers to a `groupBy`: one group per key that occurs, in any order. */
  ghost predicate IsGroupBy<K(!new)>(es: seq<Earning>, key: Earning -> K, keep: Filter, groups: seq<Group<K>>) {
    && (forall i, j | 0 <= i < j < |groups| :: groups[i].key != groups[j].key)
    && (forall g | g in groups :: g.sum == Total(es, Grouped(key, keep, g.key)))
    && (forall g | g in groups :: exists e :: e in es && keep(e) && key(e) == g.key)
    && (forall e | e in es && keep(e) :: exists g :: g in groups && g.key == key(e))
  }

  function SumAt<K(==)>(groups: seq<Group<K>>, k: K): int {
    if groups == [] then 0
    else
      var last := groups[|groups| - 1];
      SumAt(groups[..|groups| - 1], k) + if last.key == k then last.sum else 0
  }

  lemma {:induction false} SumAtAbsent<K>(groups: seq<Group<K>>, k: K)
    requires forall g | g in groups :: g.key != k
    ensures SumAt(groups, k) == 0
  {
    if groups != [] {
      SumAtAbsent(groups[..|groups| - 1], k);
      assert groups[|groups| - 1] in groups;
    }
  }

  lemma {:induction false} SumAtPresent<K>(groups: seq<Group<K>>, n: nat)
    requires n < |groups|
    requires forall i, j | 0 <= i < j < |groups| :: groups[i].key != groups[j].key
    ensures SumAt(groups, groups[n].key) == groups[n].sum
  {
    var m := |groups| - 1;
    if n == m {
      SumAtAbsent(groups[..m], groups[n].key);
    } else {
      SumAtPresent(groups[..m], n);
    }
  }

  lemma GroupsReadBack<K(!new)>(es: seq<Earning>, key: Earning -> K, keep: Filter, groups: seq<Group<K>>, k: K)
    requires IsGroupBy(es, key, keep, groups)
    ensures SumAt(groups, k) == Total(es, Grouped(key, keep, k))
  {
    if g :| g in groups && g.key == k {
      var n :| 0 <= n < |groups| && groups[n] == g;
      SumAtPresent(groups, n);
    } else {
      SumAtAbsent(groups, k);
      TotalOfNone(es, Grouped(key, keep, k));
    }
  }

  // ---- The mobile screen ---------------------------------------------------------------------------

  datatype Line = Line(prime: int, commission: int, total: int, capped: bool)

  function ByRefereeAndKind(): Earning -> (string, EarningType) {
    (e: Earning) => (e.referee, e.kind)
  }

  /** A line of the mobile screen, in terms of the rows. */
  ghost predicate Tells(es: seq<Earning>, customer: string, referee: string, cap: int, line: Line) {
    && line.prime == Total(es, GainsFromByKind(customer, referee, Prime))
    && line.prime + line.commission == line.total == Total(es, GainsFrom(customer, referee))
    && (line.capped <==> cap > 0 && line.total >= cap)
  }

  /** The two maps filled from the groups. */
  method SumByKind(
    groups: seq<Group<(string, EarningType)>>) returns (prime: map<string, int>, commission: map<string, int>)
    ensures forall r :: Get(prime, r) == SumAt(groups, (r, Prime))
             && Get(commission, r) == SumAt(groups, (r, Commission))
  {
    prime, commission := map[], map[];
    for n := 0 to |groups|
      invariant forall r :: Get(prime, r) == SumAt(groups[..n], (r, Prime))
      invariant forall r :: Get(commission, r) == SumAt(groups[..n], (r, Commission))
    {
      var g := groups[n];
      assert groups[..n + 1][..n] == groups[..n];
      if g.key.1 == Prime {
        prime := prime[g.key.0 := Get(prime, g.key.0) + g.sum];
      } else {
        commission := commission[g.key.0 := Get(commission, g.key.0) + g.sum];
      }
    }
    assert groups[..|groups|] == groups;
  }

  /** The per-referee lines of the mobile screen: their totals are the wallet's gains. */
  method MobileLines(
    earnings: seq<Earning>, customer: string, listing: seq<string>, groups: seq<Group<(string, EarningType)>>, cap: int)
    returns (lines: seq<Line>)
    requires IsGroupBy(earnings, ByRefereeAndKind(), Gains(customer), groups)
    ensures |lines| == |listing|
    ensures forall i | 0 <= i < |listing| :: Tells(earnings, customer, listing[i], cap, lines[i])
  {
    hide Total, SumAt, IsGroupBy;
    lines := [];
    if listing == [] {
      return;
    }
    var prime, commission := SumByKind(groups);
    for i := 0 to |listing|
      invariant |lines| == i
      invariant forall j | 0 <= j < i :: Tells(earnings, customer, listing[j], cap, lines[j])
    {
      var r := listing[i];
      MobileLineAgrees(earnings, customer, r, groups);
      var total := Get(prime, r) + Get(commission, r);
      lines := lines + [Line(Get(prime, r), Get(commission, r), total, cap > 0 && total >= cap)];
    }
  }

  lemma MobileLineAgrees(es: seq<Earning>, customer: string, r: string, groups: seq<Group<(string, EarningType)>>)
    requires IsGroupBy(es, ByRefereeAndKind(), Gains(customer), groups)
    ensures SumAt(groups, (r, Prime)) + SumAt(groups, (r, Commission)) == Total(es, GainsFrom(customer, r))
    ensures SumAt(groups, (r, Prime)) == Total(es, GainsFromByKind(customer, r, Prime))
  {
    GroupsReadBack(es, ByRefereeAndKind(), Gains(customer), groups, (r, Prime));
    GroupsReadBack(es, ByRefereeAndKind(), Gains(customer), groups, (r, Commission));
    hide Total, SumAt;
    forall e: Earning, kind: EarningType
      ensures Grouped(ByRefereeAndKind(), Gains(customer), (r, kind))(e) == GainsFromByKind(customer, r, kind)(e) {
    }
    TotalSame(es, Grouped(ByRefereeAndKind(), Gains(customer), (r, Prime)), GainsFromByKind(customer, r, Prime));
    TotalSame(es, Grouped(ByRefereeAndKind(), Gains(customer), (r, Commission)),
        GainsFromByKind(customer, r, Commission));
    TotalSplits(es, GainsFrom(customer, r), GainsFromByKind(customer, r, Prime),
        GainsFromByKind(customer, r, Commission));
  }

  // ---- The admin list ------------------------------------------------------------------------------

  datatype Balance = Balance(pending: int, payable: int, paid: int)

  function ByReferrerAndStatus(): Earning -> (string, EarningStatus) {
    (e: Earning) => (e.referrer, e.status)
  }

  function Standings(): Filter {
    (e: Earning) => e.status != Revoked
  }

  function BalanceOf(m: map<string, Balance>, id: string): Balance {
    if id in m then m[id] else Balance(0, 0, 0)
  }

  /** What the admin list says of one ambassador, in terms of the rows. */
  ghost predicate Agrees(es: seq<Earning>, id: string, b: Balance) {
    && b.pending == Total(es, GainsIn(id, Due))
    && b.payable == Total(es, GainsIn(id, Payable))
    && b.paid == Total(es, GainsIn(id, Paid))
  }

  /** The map filled from the groups. */
  method BalancesByReferrer(groups: seq<Group<(string, EarningStatus)>>) returns (m: map<string, Balance>)
    ensures forall id :: id in m <==> exists g :: g in groups && g.key.0 == id
    ensures forall id :: BalanceOf(m, id) ==
                           Balance(SumAt(groups, (id, Due)), SumAt(groups, (id, Payable)), SumAt(groups, (id, Paid)))
  {
    m := map[];
    for n := 0 to |groups|
      invariant forall id :: id in m <==> exists g :: g in groups[..n] && g.key.0 == id
      invariant forall id :: BalanceOf(m, id) ==
                  Balance(SumAt(groups[..n], (id, Due)), SumAt(groups[..n], (id, Payable)),
                      SumAt(groups[..n], (id, Paid)))
    {
      var g := groups[n];
      assert groups[..n + 1][..n] == groups[..n];
      assert groups[..n + 1] == groups[..n] + [g];
      var b := BalanceOf(m, g.key.0);
      if g.key.1 == Due {
        b := b.(pending := b.pending + g.sum);
      } else if g.key.1 == Payable {
        b := b.(payable := b.payable + g.sum);
      } else if g.key.1 == Paid {
        b := b.(paid := b.paid + g.sum);
      }
      m := m[g.key.0 := b];
    }
    assert groups[..|groups|] == groups;
  }

  /**
   The admin list: an ambassador is on it exactly when an earning of theirs stands, with the balances of their
   rows.
   */
  method AdminList(
    earnings: seq<Earning>, groups: seq<Group<(string, EarningStatus)>>) returns (m: map<string, Balance>)
    requires IsGroupBy(earnings, ByReferrerAndStatus(), Standings(), groups)
    ensures forall id :: id in m <==> exists e :: e in earnings && Gains(id)(e)
    ensures forall id :: Agrees(earnings, id, BalanceOf(m, id))
  {
    hide Total, SumAt, IsGroupBy;
    m := BalancesByReferrer(groups);
    forall id ensures Agrees(earnings, id, BalanceOf(m, id)) {
      AdminLineAgrees(earnings, groups, id, Due);
      AdminLineAgrees(earnings, groups, id, Payable);
      AdminLineAgrees(earnings, groups, id, Paid);
    }
    forall id ensures id in m <==> exists e :: e in earnings && Gains(id)(e) {
      GroupsCoverReferrers(earnings, groups, id);
    }
  }

  lemma AdminLineAgrees(
    es: seq<Earning>, groups: seq<Group<(string, EarningStatus)>>, id: string, status: EarningStatus)
    requires IsGroupBy(es, ByReferrerAndStatus(), Standings(), groups) && status != Revoked
    ensures SumAt(groups, (id, status)) == Total(es, GainsIn(id, status))
  {
    GroupsReadBack(es, ByReferrerAndStatus(), Standings(), groups, (id, status));
    hide Total, SumAt, IsGroupBy;
    forall e: Earning ensures Grouped(ByReferrerAndStatus(), Standings(), (id, status))(e) == GainsIn(id, status)(e) {
    }
    TotalSame(es, Grouped(ByReferrerAndStatus(), Standings(), (id, status)), GainsIn(id, status));
  }

  lemma GroupsCoverReferrers(es: seq<Earning>, groups: seq<Group<(string, EarningStatus)>>, id: string)
    requires IsGroupBy(es, ByReferrerAndStatus(), Standings(), groups)
    ensures (exists g :: g in groups && g.key.0 == id) <==> exists e :: e in es && Gains(id)(e)
  {
    hide Total;
    if g :| g in groups && g.key.0 == id {
      var e :| e in es && Standings()(e) && ByReferrerAndStatus()(e) == g.key;
      assert Gains(id)(e);
    }
    if e :| e in es && Gains(id)(e) {
      assert Standings()(e);
      var g :| g in groups && g.key == ByReferrerAndStatus()(e);
    }
  }

  /** Main result: the admin list and the customer's own wallet show the same balances. */
  lemma AdminAgreesWithWallet(es: seq<Earning>, customer: string, listing: seq<string>, w: Wallet, b: Balance)
    requires Shows(es, customer, listing, w) && Agrees(es, customer, b)
    ensures b.pending + b.payable == w.payable && b.paid == w.paid
    ensures b.pending + b.payable + b.paid == w.prime + w.commission
  {
    BalancesAddUp(es, customer);
    hide Total;
    TotalSplits(es, Gains(customer), GainsOfKind(customer, Prime), GainsOfKind(customer, Commission));
  }

  lemma {:induction false} DueIsPending(es: seq<Earning>, referrer: string)
    ensures DueTo(es, referrer) == Total(es, GainsIn(referrer, Due))
  {
    if es != [] {
      DueIsPending(es[..|es| - 1], referrer);
    }
  }

  /**
   Main result: `over_threshold` announces exactly the ambassadors whose pending earnings a threshold run would
   release.
   */
  lemma OverThresholdIsWhoGetsReleased(l: Ledger, orders: map<string, Order>, config: Config, b: Balance, i: nat)
    requires i < |l.earnings| && l.earnings[i].status == Due
    requires Agrees(l.earnings, l.earnings[i].referrer, b)
    ensures var released := Do(l, orders, config, ApplyThreshold).earnings;
            released[i].status == if b.pending >= config.threshold then Payable else Due
  {
    DueIsPending(l.earnings, l.earnings[i].referrer);
    hide DueTo, Total;
  }
}
