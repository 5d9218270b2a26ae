/** The tallies of one code's detail page, and their agreement with its counter. */
module PromoAnalytics {
  import opened PromoUsage

  const HOUR_MS := 60 * 60 * 1000

  function Hour(at: int): (h: nat)
    ensures h < 24
  {
    at / HOUR_MS % 24
  }

  function Day(at: int): int {
    at / HOUR_MS / 24
  }

  /** 1970-01-01 was a Thursday; 0 is Sunday. */
  function Weekday(at: int): (d: nat)
    ensures d < 7
  {
    (Day(at) + 4) % 7
  }

  datatype Tally = Tally(usages: int, discount: int)

  /** A tally per key, keys in order of first use. */
  datatype Table<K(==)> = Table(keys: seq<K>, at: map<K, Tally>)

  datatype Analytics = Analytics(total: nat, discount: int, byCustomer: Table<string>, byDay: Table<int>,
      byHour: seq<int>, byWeekday: seq<int>)

  function Sum(xs: seq<int>): int {
    if xs == [] then 0 else Sum(xs[..|xs| - 1]) + xs[|xs| - 1]
  }

  function Discounts(us: seq<Usage>): int {
    if us == [] then 0 else Discounts(us[..|us| - 1]) + us[|us| - 1].discount
  }

  /** The ACTIVE usages of a code, as the query returns them. */
  function Query(us: seq<Usage>, promo: string): seq<Usage> {
    if us == [] then []
    else
      var last := us[|us| - 1];
      Query(us[..|us| - 1], promo) + if last.promo == promo && last.active then [last] else []
  }

  lemma {:induction false} QueryIsActive(us: seq<Usage>, promo: string)
    ensures |Query(us, promo)| == Active(us, promo)
  {
    if us != [] {
      QueryIsActive(us[..|us| - 1], promo);
    }
  }

  ghost predicate WellFormed<K(!new)>(t: Table<K>) {
    (forall k :: k in t.keys <==> k in t.at) && forall i, j | 0 <= i < j < |t.keys| :: t.keys[i] != t.keys[j]
  }

  function Totals<K>(keys: seq<K>, at: map<K, Tally>): Tally
    requires forall k | k in keys :: k in at
  {
    if keys == [] then Tally(0, 0)
    else
      var rest := Totals(keys[..|keys| - 1], at);
      var last := at[keys[|keys| - 1]];
      Tally(rest.usages + last.usages, rest.discount + last.discount)
  }

  function Bump<K>(t: Table<K>, k: K, discount: int): Table<K> {
    var was := if k in t.at then t.at[k] else Tally(0, 0);
    Table(if k in t.at then t.keys else t.keys + [k], t.at[k := Tally(was.usages + 1, was.discount + discount)])
  }

  lemma {:induction false} TotalsElsewhere<K>(keys: seq<K>, at: map<K, Tally>, k: K, v: Tally)
    requires (forall x | x in keys :: x in at) && k !in keys
    ensures Totals(keys, at[k := v]) == Totals(keys, at)
  {
    if keys != [] {
      TotalsElsewhere(keys[..|keys| - 1], at, k, v);
      assert keys[|keys| - 1] in keys;
    }
  }

  lemma {:induction false} TotalsChanged<K>(keys: seq<K>, at: map<K, Tally>, k: K, v: Tally)
    requires (forall x | x in keys :: x in at) && k in keys
    requires forall i, j | 0 <= i < j < |keys| :: keys[i] != keys[j]
    ensures Totals(keys, at[k := v]).usages == Totals(keys, at).usages - at[k].usages + v.usages
    ensures Totals(keys, at[k := v]).discount == Totals(keys, at).discount - at[k].discount + v.discount
  {
    var n := |keys| - 1;
    if keys[n] == k {
      TotalsElsewhere(keys[..n], at, k, v);
    } else {
      TotalsChanged(keys[..n], at, k, v);
    }
  }

  ghost predicate TableAddsUp<K(!new)>(t: Table<K>, usages: int, discount: int) {
    WellFormed(t) && Totals(t.keys, t.at) == Tally(usages, discount)
  }

  lemma BumpAddsOne<K(!new)>(t: Table<K>, k: K, usages: int, total: int, discount: int)
    requires TableAddsUp(t, usages, total)
    ensures TableAddsUp(Bump(t, k, discount), usages + 1, total + discount)
  {
    BumpIsWellFormed(t, k, discount);
    if k in t.at {
      var was := t.at[k];
      TotalsChanged(t.keys, t.at, k, Tally(was.usages + 1, was.discount + discount));
      hide Totals;
    } else {
      BumpsNewKey(t, k, discount);
      hide Bump, Totals, WellFormed;
    }
  }

  lemma BumpsNewKey<K(!new)>(t: Table<K>, k: K, discount: int)
    requires WellFormed(t) && k !in t.at && WellFormed(Bump(t, k, discount))
    ensures var t', sum := Bump(t, k, discount), Totals(t.keys, t.at);
            Totals(t'.keys, t'.at) == Tally(sum.usages + 1, sum.discount + discount)
  {
    hide Totals;
    var at := t.at[k := Tally(1, discount)];
    TotalsElsewhere(t.keys, t.at, k, Tally(1, discount));
    TotalsOneMore(t.keys, at, k);
  }

  lemma TotalsOneMore<K>(keys: seq<K>, at: map<K, Tally>, k: K)
    requires k in at && forall x | x in keys :: x in at
    ensures var sum := Totals(keys, at);
            (forall x | x in keys + [k] :: x in at)
            && Totals(keys + [k], at) == Tally(sum.usages + at[k].usages, sum.discount + at[k].discount)
  {
    assert (keys + [k])[..|keys|] == keys;
  }

  lemma BumpIsWellFormed<K(!new)>(t: Table<K>, k: K, discount: int)
    requires WellFormed(t)
    ensures WellFormed(Bump(t, k, discount))
  {
    var t' := Bump(t, k, discount);
    assert forall x :: x in t'.keys <==> x in t.keys || x == k;
  }

  lemma {:induction false} SumBump(xs: seq<int>, i: nat)
    requires i < |xs|
    ensures Sum(xs[i := xs[i] + 1]) == Sum(xs) + 1
  {
    var n := |xs| - 1;
    if i < n {
      SumBump(xs[..n], i);
      assert xs[i := xs[i] + 1][..n] == xs[..n][i := xs[i] + 1];
    } else {
      assert xs[i := xs[i] + 1][..n] == xs[..n];
    }
  }

  lemma {:induction false} SumOfZeros(n: nat)
    ensures Sum(seq(n, _ => 0)) == 0
  {
    if n > 0 {
      SumOfZeros(n - 1);
      assert seq(n, _ => 0)[..n - 1] == seq(n - 1, _ => 0);
    }
  }

  function CountOf(us: seq<Usage>, holds: Usage -> bool): nat {
    if us == [] then 0 else CountOf(us[..|us| - 1], holds) + if holds(us[|us| - 1]) then 1 else 0
  }

  function InHour(h: int): Usage -> bool {
    (u: Usage) => Hour(u.at) == h
  }

  function OnWeekday(d: int): Usage -> bool {
    (u: Usage) => Weekday(u.at) == d
  }

  function OnDay(d: int): Usage -> bool {
    (u: Usage) => Day(u.at) == d
  }

  function By(customer: string): Usage -> bool {
    (u: Usage) => u.customer == customer
  }

  /** Each cell counts its own usages. */
  ghost predicate CountsUsages(us: seq<Usage>, a: Analytics) {
    && |a.byHour| == 24 && |a.byWeekday| == 7
    && (forall h | 0 <= h < 24 :: a.byHour[h] == CountOf(us, InHour(h)))
    && (forall d | 0 <= d < 7 :: a.byWeekday[d] == CountOf(us, OnWeekday(d)))
    && (forall d :: (if d in a.byDay.at then a.byDay.at[d].usages else 0) == CountOf(us, OnDay(d)))
    && (forall c :: (if c in a.byCustomer.at then a.byCustomer.at[c].usages else 0) == CountOf(us, By(c)))
  }

  /** No usage is missing from a breakdown, none is in it twice. */
  ghost predicate AddsUp(us: seq<Usage>, a: Analytics) {
    && a.total == |us| && a.discount == Discounts(us)
    && TableAddsUp(a.byCustomer, |us|, Discounts(us)) && TableAddsUp(a.byDay, |us|, Discounts(us))
    && Sum(a.byHour) == |us| && Sum(a.byWeekday) == |us|
  }

  function Counted(a: Analytics, u: Usage): Analytics
    requires |a.byHour| == 24 && |a.byWeekday| == 7
  {
    a.(byCustomer := Bump(a.byCustomer, u.customer, u.discount), byDay := Bump(a.byDay, Day(u.at), u.discount),
       byHour := a.byHour[Hour(u.at) := a.byHour[Hour(u.at)] + 1],
       byWeekday := a.byWeekday[Weekday(u.at) := a.byWeekday[Weekday(u.at)] + 1],
       total := a.total + 1, discount := a.discount + u.discount)
  }

  lemma CountedAddsUp(us: seq<Usage>, a: Analytics, u: Usage)
    requires CountsUsages(us, a) && AddsUp(us, a)
    ensures CountsUsages(us + [u], Counted(a, u)) && AddsUp(us + [u], Counted(a, u))
  {
    CountedSums(us, a, u);
    CountedCounts(us, a, u);
    hide *;
  }

  lemma CountedSums(us: seq<Usage>, a: Analytics, u: Usage)
    requires |a.byHour| == 24 && |a.byWeekday| == 7 && AddsUp(us, a)
    ensures AddsUp(us + [u], Counted(a, u))
  {
    hide Hour, Day, Weekday, Sum, TableAddsUp, Bump;
    assert Discounts(us + [u]) == Discounts(us) + u.discount by {
      assert (us + [u])[..|us|] == us;
    }
    hide Discounts;
    var a' := Counted(a, u);
    assert a'.byHour == a.byHour[Hour(u.at) := a.byHour[Hour(u.at)] + 1];
    assert a'.byWeekday == a.byWeekday[Weekday(u.at) := a.byWeekday[Weekday(u.at)] + 1];
    assert a'.byCustomer == Bump(a.byCustomer, u.customer, u.discount)
        && a'.byDay == Bump(a.byDay, Day(u.at), u.discount);
    assert a'.total == a.total + 1 && a'.discount == a.discount + u.discount;
    hide Counted;
    BumpAddsOne(a.byCustomer, u.customer, |us|, Discounts(us), u.discount);
    BumpAddsOne(a.byDay, Day(u.at), |us|, Discounts(us), u.discount);
    SumBump(a.byHour, Hour(u.at));
    SumBump(a.byWeekday, Weekday(u.at));
    assert |us + [u]| == |us| + 1;
  }

  lemma CountedCounts(us: seq<Usage>, a: Analytics, u: Usage)
    requires CountsUsages(us, a)
    ensures CountsUsages(us + [u], Counted(a, u))
  {
    forall holds: Usage -> bool ensures CountOf(us + [u], holds) == CountOf(us, holds) + if holds(u) then 1 else 0 {
      assert (us + [u])[..|us|] == us;
    }
    hide CountOf, Hour, Day, Weekday;
  }

  /** The loop over a code's ACTIVE usages. */
  method GetAnalytics(all: seq<Usage>, promo: string) returns (a: Analytics)
    ensures CountsUsages(Query(all, promo), a) && AddsUp(Query(all, promo), a)
  {
    var us := Query(all, promo);
    a := Analytics(0, 0, Table([], map[]), Table([], map[]), seq(24, _ => 0), seq(7, _ => 0));
    SumOfZeros(24);
    SumOfZeros(7);
    for n := 0 to |us|
      invariant CountsUsages(us[..n], a) && AddsUp(us[..n], a)
    {
      hide AddsUp, Counted, Bump, Day, Weekday, Hour;
      assert us[..n + 1] == us[..n] + [us[n]];
      CountedAddsUp(us[..n], a, us[n]);
      a := Counted(a, us[n]);
    }
    assert us[..|us|] == us;
  }

  /** Main result: over every serial run, every breakdown of a code sums to its counter. */
  lemma BreakdownsSumToCounter(ops: seq<Operation>, promo: string, a: Analytics)
    requires promo in Run(ops).counts && AddsUp(Query(Run(ops).usages, promo), a)
    ensures var count := Run(ops).counts[promo];
            && count == a.total == Sum(a.byHour) == Sum(a.byWeekday)
            && count == Totals(a.byDay.keys, a.byDay.at).usages == Totals(a.byCustomer.keys, a.byCustomer.at).usages
  {
    CounterAgrees(ops);
    QueryIsActive(Run(ops).usages, promo);
    hide Run, Query, Active, Sum, Totals;
  }
}
