/** What each promo operation does to the rows and counters, and the calendar of the tallies, spelled out. */
module PromoEffects {
  import opened Wrappers
  import opened PromoUsage
  import opened PromoAnalytics

  /**
   Main result: a usage is staged INACTIVE, once per code and order; unknown codes stage nothing, no counter
   moves.
   */
  lemma RecordEffect(p: Promos, promo: string, customer: string, order: Option<string>, amount: int, now: int)
    ensures var p' := Record(p, promo, customer, order, amount, now);
            var staged := order.Some? && order.value != ""
                          && exists i :: 0 <= i < |p.usages| && p.usages[i].promo == promo
                              && p.usages[i].order == order;
            && p'.counts == p.counts && p'.ids == p.ids
            && p'.usages == if promo in p.counts && !staged
                            then p.usages + [Usage(promo, customer, order, amount, false, now)] else p.usages
  {
    if i :| 0 <= i < |p.usages| && p.usages[i].promo == promo && p.usages[i].order == order {
      assert p.usages[i] in p.usages;
    }
  }

  predicate HasUsage(us: seq<Usage>, order: string) {
    exists i :: 0 <= i < |us| && us[i].order == Some(order)
  }

  /** Main result: a paid order counts its INACTIVE usage, once, for the usage's own code. */
  lemma ActivateStagedEffect(p: Promos, order: Order, found: nat, now: int)
    requires found < |p.usages| && p.usages[found].order == Some(order.id) && p.usages[found].promo in p.counts
    ensures var u := p.usages[found];
            Activate(p, order, found, now) ==
              if order.code == None || order.code == Some("") || u.active then p
              else p.(usages := p.usages[found := u.(active := true)],
                  counts := p.counts[u.promo := p.counts[u.promo] + 1])
  {
  }

  /**
   Main result: a paid order without usage gets an ACTIVE one for its own code, at its own discount, counted at
   once.
   */
  lemma ActivateUnstagedEffect(p: Promos, order: Order, found: nat, now: int)
    requires !HasUsage(p.usages, order.id) && forall c | c in p.ids :: p.ids[c] in p.counts
    ensures Activate(p, order, found, now) ==
              if order.code == None || order.code == Some("") || order.code.value !in p.ids then p
              else
                var promo := p.ids[order.code.value];
                var amount := if order.discount == None then 0 else order.discount.value;
                p.(usages := p.usages + [Usage(promo, order.customer, Some(order.id), amount, true, now)],
                   counts := p.counts[promo := p.counts[promo] + 1])
  {
    assert !Found(p.usages, order.id);
  }

  predicate CountedFor(u: Usage, promo: string, order: string) {
    u.promo == promo && u.active && u.order == Some(order)
  }

  function CountedOn(us: seq<Usage>, promo: string, order: string): nat {
    CountOf(us, (u: Usage) => CountedFor(u, promo, order))
  }

  lemma {:induction false} ActiveOnIs(us: seq<Usage>, promo: string, order: string)
    ensures ActiveOn(us, promo, order) == CountOf(us, (u: Usage) => CountedFor(u, promo, order))
  {
    if us != [] {
      ActiveOnIs(us[..|us| - 1], promo, order);
    }
  }

  /** Main result: a cancelled order turns all its usages INACTIVE and takes each counted one off its own code. */
  lemma DeactivateEffect(p: Promos, order: string)
    ensures var p' := Deactivate(p, order);
            && p'.ids == p.ids && |p'.usages| == |p.usages| && p'.counts.Keys == p.counts.Keys
            && (forall i | 0 <= i < |p.usages| ::
                  p'.usages[i] == if p.usages[i].order == Some(order) then p.usages[i].(active := false)
                      else p.usages[i])
            && (forall id | id in p.counts :: p'.counts[id] == p.counts[id] - CountedOn(p.usages, id, order))
  {
    forall id | id in p.counts ensures ActiveOn(p.usages, id, order) == CountedOn(p.usages, id, order) {
      ActiveOnIs(p.usages, id, order);
    }
    hide ActiveOn, CountOf;
  }

  // ---- The calendar -------------------------------------------------------------------------------------

  const AN_HOUR := 3_600_000
  const A_DAY := 86_400_000

  /** Main result: hours run from 0 to 23 through each day, from midnight. */
  lemma HoursOfTheDay(day: int, hour: nat, ms: nat)
    requires hour < 24 && ms < AN_HOUR
    ensures Hour(day * A_DAY + hour * AN_HOUR + ms) == hour && Day(day * A_DAY + hour * AN_HOUR + ms) == day
  {
    var at := day * A_DAY + hour * AN_HOUR + ms;
    assert at == (day * 24 + hour) * AN_HOUR + ms;
    assert at / AN_HOUR == day * 24 + hour;
  }

  /** Main result: weekdays follow one another, and 1 January 2023 (day 19358) was a Sunday. */
  lemma WeekdaysFollow(at: int)
    ensures Weekday(at + A_DAY) == if Weekday(at) == 6 then 0 else Weekday(at) + 1
    ensures Weekday(19_358 * A_DAY) == 0
  {
    assert (at + A_DAY) / HOUR_MS == at / HOUR_MS + 24;
    assert Day(at + A_DAY) == Day(at) + 1;
  }

  /** Discounts add up from nothing, one usage at a time. */
  lemma DiscountsAdd(us: seq<Usage>, u: Usage)
    ensures Discounts([]) == 0 && Discounts(us + [u]) == Discounts(us) + u.discount
  {
    assert (us + [u])[..|us|] == us;
  }

  /** The tallies are over exactly the ACTIVE usages of the code, in order. */
  lemma {:induction false} QueryKeeps(us: seq<Usage>, promo: string, u: Usage)
    ensures u in Query(us, promo) <==> u in us && u.promo == promo && u.active
  {
    if us != [] {
      var n := |us| - 1;
      QueryKeeps(us[..n], promo, u);
      assert us == us[..n] + [us[n]];
    }
  }
}
