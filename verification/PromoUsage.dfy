/**
 Promo code usages and their counter (src/modules/promo-code/promo-code.service.ts). A usage's id is its
 position; an operation runs alone, and a `findFirst` over several matching rows may return any of them.
 */
module PromoUsage {
  import opened Wrappers

  /** `at` is in milliseconds since 1970. */
  datatype Usage = Usage(promo: string, customer: string, order: Option<string>, discount: int, active: bool, at: int)

  /** `ids` is the unique index on the code itself. */
  datatype Promos = Promos(counts: map<string, int>, ids: map<string, string>, usages: seq<Usage>)

  datatype Order = Order(id: string, code: Option<string>, customer: string, discount: Option<int>)

  predicate Given(s: Option<string>) {
    s.Some? && s.value != ""
  }

  predicate Recorded(us: seq<Usage>, promo: string, order: Option<string>) {
    exists u :: u in us && u.promo == promo && u.order == order
  }

  function Record(p: Promos, promo: string, customer: string, order: Option<string>, amount: int, now: int): Promos {
    if promo !in p.counts || (Given(order) && Recorded(p.usages, promo, order)) then p
    else p.(usages := p.usages + [Usage(promo, customer, order, amount, false, now)])
  }

  predicate IsOn(us: seq<Usage>, i: nat, order: string) {
    i < |us| && us[i].order == Some(order)
  }

  predicate Found(us: seq<Usage>, order: string) {
    exists i: nat :: i < |us| && IsOn(us, i, order)
  }

  /** `found` is the row the database answers with when the order has usages, `now` the creation time otherwise. */
  function Activate(p: Promos, order: Order, found: nat, now: int): Promos {
    if !Given(order.code) then p
    else if IsOn(p.usages, found, order.id) then
      var u := p.usages[found];
      if u.active || u.promo !in p.counts then p
      else p.(usages := p.usages[found := u.(active := true)], counts := p.counts[u.promo := p.counts[u.promo] + 1])
    else if Found(p.usages, order.id) || order.code.value !in p.ids || p.ids[order.code.value] !in p.counts then p
    else
      var promo := p.ids[order.code.value];
      var amount := if order.discount.Some? then order.discount.value else 0;
      p.(usages := p.usages + [Usage(promo, order.customer, Some(order.id), amount, true, now)],
         counts := p.counts[promo := p.counts[promo] + 1])
  }

  function Off(u: Usage, order: string): Usage {
    if u.order == Some(order) then u.(active := false) else u
  }

  function AllOff(us: seq<Usage>, order: string): (r: seq<Usage>)
    ensures |r| == |us|
  {
    seq(|us|, i requires 0 <= i < |us| => Off(us[i], order))
  }

  /** How many ACTIVE usages a code has. */
  function Active(us: seq<Usage>, promo: string): nat {
    if us == [] then 0
    else
      var last := us[|us| - 1];
      Active(us[..|us| - 1], promo) + if last.promo == promo && last.active then 1 else 0
  }

  function ActiveOn(us: seq<Usage>, promo: string, order: string): nat {
    if us == [] then 0
    else
      var last := us[|us| - 1];
      ActiveOn(us[..|us| - 1], promo, order) + if last.promo == promo && last.active
          && last.order == Some(order) then 1 else 0
  }

  function Deactivate(p: Promos, order: string): Promos {
    p.(usages := AllOff(p.usages, order), counts := map id | id in p.counts ::
        p.counts[id] - ActiveOn(p.usages, id, order))
  }

  // ---- The service -----------------------------------------------------------------------------------

  class PromoCodes {
    var counts: map<string, int>
    var ids: map<string, string>
    var usages: seq<Usage>

    function State(): Promos
      reads this
    {
      Promos(counts, ids, usages)
    }

    constructor ()
      ensures State() == Promos(map[], map[], [])
    {
      counts, ids, usages := map[], map[], [];
    }

    /** False for a code that does not exist. */
    method RecordUsage(promo: string, customer: string, order: Option<string>, amount: int, now: int) returns (ok: bool)
      modifies this
      ensures State() == Record(old(State()), promo, customer, order, amount, now)
      ensures ok <==> promo in counts
    {
      if promo !in counts {
        return false;
      }
      if Given(order) && Recorded(usages, promo, order) {
        return true;
      }
      usages := usages + [Usage(promo, customer, order, amount, false, now)];
      return true;
    }

    method ActivateUsageForOrder(order: Order, found: nat, now: int)
      requires Found(usages, order.id) ==> IsOn(usages, found, order.id)
      requires forall u | u in usages :: u.promo in counts
      requires forall c | c in ids :: ids[c] in counts
      modifies this
      ensures State() == Activate(old(State()), order, found, now)
    {
      if !Given(order.code) {
        return;
      }
      if Found(usages, order.id) {
        if usages[found].active {
          return;
        }
        usages := usages[found := usages[found].(active := true)];
        counts := counts[usages[found].promo := counts[usages[found].promo] + 1];
        return;
      }
      if order.code.value !in ids {
        return;
      }
      var promo := ids[order.code.value];
      usages := usages + [Usage(promo, order.customer, Some(order.id),
                                if order.discount.Some? then order.discount.value else 0, true, now)];
      counts := counts[promo := counts[promo] + 1];
    }

    /** One transaction: a pair of updates per ACTIVE usage of the order. */
    method DeactivateUsageForOrder(order: string)
      requires forall u | u in usages :: u.promo in counts
      modifies this
      ensures State() == Deactivate(old(State()), order)
    {
      ghost var was := State();
      UntilStart(was, order);
      for n := 0 to |usages|
        invariant |usages| == |was.usages|
        invariant State() == Until(was, order, n)
      {
        UntilNext(was, order, n);
        hide Until;
        var u := usages[n];
        if u.order == Some(order) && u.active {
          usages := usages[n := u.(active := false)];
          counts := counts[u.promo := counts[u.promo] - 1];
        }
      }
      assert was.usages[..|was.usages|] == was.usages;
    }
  }

  /** The first `n` usages done. */
  ghost function Until(p: Promos, order: string, n: nat): Promos
    requires n <= |p.usages|
  {
    p.(usages := AllOff(p.usages[..n], order) + p.usages[n..],
       counts := map id | id in p.counts :: p.counts[id] - ActiveOn(p.usages[..n], id, order))
  }

  lemma UntilStart(p: Promos, order: string)
    ensures Until(p, order, 0) == p
  {
  }

  lemma UntilNext(p: Promos, order: string, n: nat)
    requires n < |p.usages| && forall u | u in p.usages :: u.promo in p.counts
    ensures var now := Until(p, order, n);
            var u := p.usages[n];
            && |now.usages| == |p.usages| && now.usages[n] == u && u.promo in now.counts
            && Until(p, order, n + 1) ==
               if u.order == Some(order) && u.active
               then now.(usages := now.usages[n := u.(active := false)],
                   counts := now.counts[u.promo := now.counts[u.promo] - 1])
               else now
  {
    var us, u := p.usages, p.usages[n];
    var now, next := Until(p, order, n), Until(p, order, n + 1);
    assert u in us;
    assert us[..n + 1][..n] == us[..n];
    assert now.usages[n] == u;
    forall i | 0 <= i < |us| ensures next.usages[i] == if i == n then Off(u, order) else now.usages[i] {
    }
    assert next.usages == now.usages[n := Off(u, order)];
    var counts := if u.order == Some(order) && u.active then now.counts[u.promo := now.counts[u.promo] - 1]
        else now.counts;
    forall id | id in p.counts ensures next.counts[id] == counts[id] {
      assert ActiveOn(us[..n + 1], id, order)
          == ActiveOn(us[..n], id, order) + if u.promo == id && u.active && u.order == Some(order) then 1 else 0;
    }
    assert next.counts == counts;
  }

  // ---- The counter over every run --------------------------------------------------------------------

  datatype Operation =
    | CreateCode(id: string, text: string)
    | RecordOne(promo: string, customer: string, on: Option<string>, amount: int, now: int)
    | OrderPaid(paid: Order, found: nat, now: int)
    | OrderCancelled(order: string)

  function Do(p: Promos, op: Operation): Promos {
    match op
    case CreateCode(id, text) =>
      if id in p.counts || text in p.ids then p else p.(counts := p.counts[id := 0], ids := p.ids[text := id])
    case RecordOne(promo, customer, order, amount, now) => Record(p, promo, customer, order, amount, now)
    case OrderPaid(order, found, now) => Activate(p, order, found, now)
    case OrderCancelled(order) => Deactivate(p, order)
  }

  function Run(ops: seq<Operation>): Promos {
    if ops == [] then Promos(map[], map[], []) else Do(Run(ops[..|ops| - 1]), ops[|ops| - 1])
  }

  /** Each counter is the number of ACTIVE usages; usages and index entries refer to existing codes. */
  ghost predicate Agrees(p: Promos) {
    && (forall id | id in p.counts :: p.counts[id] == Active(p.usages, id))
    && (forall u | u in p.usages :: u.promo in p.counts)
    && (forall c | c in p.ids :: p.ids[c] in p.counts)
  }

  lemma {:induction false} ActiveWithUpdate(us: seq<Usage>, i: nat, u: Usage, promo: string)
    requires i < |us| && u == us[i].(active := true) && !us[i].active
    ensures Active(us[i := u], promo) == Active(us, promo) + if u.promo == promo then 1 else 0
  {
    var n := |us| - 1;
    if i < n {
      ActiveWithUpdate(us[..n], i, u, promo);
      assert us[i := u][..n] == us[..n][i := u];
    } else {
      assert us[i := u][..n] == us[..n];
    }
  }

  lemma {:induction false} ActiveAllOff(us: seq<Usage>, order: string, promo: string)
    ensures Active(AllOff(us, order), promo) == Active(us, promo) - ActiveOn(us, promo, order)
  {
    if us != [] {
      var n := |us| - 1;
      ActiveAllOff(us[..n], order, promo);
      assert AllOff(us, order)[..n] == AllOff(us[..n], order);
    }
  }

  lemma {:induction false} NoUsageNoActive(us: seq<Usage>, promo: string)
    requires forall u | u in us :: u.promo != promo
    ensures Active(us, promo) == 0
  {
    if us != [] {
      NoUsageNoActive(us[..|us| - 1], promo);
    }
  }

  lemma ActivatingAgrees(p: Promos, order: Order, found: nat, now: int)
    requires Agrees(p)
    ensures Agrees(Activate(p, order, found, now))
  {
    var p' := Activate(p, order, found, now);
    if p' != p && IsOn(p.usages, found, order.id) {
      forall id | id in p.counts ensures p'.counts[id] == Active(p'.usages, id) {
        ActiveWithUpdate(p.usages, found, p'.usages[found], id);
      }
      assert p.usages[found] in p.usages;
    } else if p' != p {
      var n := |p.usages|;
      assert p'.usages[..n] == p.usages;
    }
  }

  lemma DoAgrees(p: Promos, op: Operation)
    requires Agrees(p)
    ensures Agrees(Do(p, op))
  {
    var p' := Do(p, op);
    match op {
      case CreateCode(id, _) =>
        if p' != p {
          NoUsageNoActive(p.usages, id);
        }
        hide Active;
      case RecordOne(promo, customer, order, amount, now) =>
        if p' != p {
          assert p'.usages[..|p.usages|] == p.usages;
        }
      case OrderPaid(order, found, now) => ActivatingAgrees(p, order, found, now); hide Active, Activate;
      case OrderCancelled(order) =>
        forall id | id in p.counts ensures p'.counts[id] == Active(p'.usages, id) {
          ActiveAllOff(p.usages, order, id);
        }
        forall u | u in p'.usages ensures u.promo in p'.counts {
          var i :| 0 <= i < |p'.usages| && p'.usages[i] == u;
          assert p.usages[i] in p.usages;
        }
        hide Active, ActiveOn;
    }
  }

  /** Main result: over every serial run, a code's counter is the number of its ACTIVE usages. */
  lemma {:induction false} CounterAgrees(ops: seq<Operation>)
    ensures Agrees(Run(ops))
  {
    if ops != [] {
      CounterAgrees(ops[..|ops| - 1]);
      DoAgrees(Run(ops[..|ops| - 1]), ops[|ops| - 1]);
      hide Agrees, Do;
    }
  }

  /** At most one usage row refers to the order. */
  ghost predicate Single(us: seq<Usage>, order: string) {
    forall i: nat, j: nat | IsOn(us, i, order) && IsOn(us, j, order) :: i == j
  }

  /** Paying twice counts once, whichever row each lookup returns, as long as the order has at most one usage. */
  lemma ActivationReplay(p: Promos, order: Order, found: nat, again: nat, now: int, later: int)
    requires Single(p.usages, order.id)
    requires Found(p.usages, order.id) ==> IsOn(p.usages, found, order.id)
    requires var p' := Activate(p, order, found, now); Found(p'.usages, order.id) ==> IsOn(p'.usages, again, order.id)
    ensures var p' := Activate(p, order, found, now); Activate(p', order, again, later) == p'
  {
    var p' := Activate(p, order, found, now);
    if Given(order.code) && !Found(p.usages, order.id) {
      if p' != p {
        assert IsOn(p'.usages, |p.usages|, order.id);
        assert forall i: nat | i < |p.usages| ::
            !IsOn(p.usages, i, order.id) && (IsOn(p'.usages, i, order.id) ==> IsOn(p.usages, i, order.id));
      }
    } else if Given(order.code) {
      assert IsOn(p'.usages, found, order.id);
      assert IsOn(p.usages, again, order.id);
    }
  }

  /** Exactly when a replayed payment counts nothing more: no other usage of the order is still waiting. */
  lemma ReplayCountsOnceIff(p: Promos, order: Order, found: nat, now: int, later: int)
    requires Agrees(p) && Given(order.code) && IsOn(p.usages, found, order.id)
    ensures var p' := Activate(p, order, found, now);
            (forall again: nat | IsOn(p'.usages, again, order.id) :: Activate(p', order, again, later) == p')
            <==> (forall i: nat | IsOn(p.usages, i, order.id) && i != found :: p.usages[i].active)
  {
    hide Active;
    var p' := Activate(p, order, found, now);
    assert p.usages[found] in p.usages;
    assert forall i: nat :: IsOn(p'.usages, i, order.id) <==> IsOn(p.usages, i, order.id);
    assert forall i: nat | IsOn(p.usages, i, order.id) && i != found :: p'.usages[i] == p.usages[i];
    if i: nat :| IsOn(p.usages, i, order.id) && i != found && !p.usages[i].active {
      assert p.usages[i] in p.usages;
      assert Activate(p', order, i, later).usages[i].active;
    }
  }

  lemma RunThen(ops: seq<Operation>, op: Operation)
    ensures Run(ops + [op]) == Do(Run(ops), op)
  {
    assert (ops + [op])[..|ops|] == ops;
  }

  const TWO_CODES := Promos(map["a" := 0, "b" := 0], map["A" := "a", "B" := "b"], [])
  const STAGED_A := Usage("a", "c", Some("o"), 5, false, 0)
  const STAGED_B := Usage("b", "c", Some("o"), 7, false, 0)

  lemma TwoCodesStaged() returns (ops: seq<Operation>)
    ensures Run(ops) == TWO_CODES.(usages := [STAGED_A, STAGED_B])
  {
    ops := [] + [CreateCode("a", "A")];
    RunThen([], CreateCode("a", "A"));
    assert Run([]) == Promos(map[], map[], []);
    hide Run;
    RunThen(ops, CreateCode("b", "B"));
    ops := ops + [CreateCode("b", "B")];
    assert Run(ops) == TWO_CODES;
    RunThen(ops, RecordOne("a", "c", Some("o"), 5, 0));
    ops := ops + [RecordOne("a", "c", Some("o"), 5, 0)];
    RunThen(ops, RecordOne("b", "c", Some("o"), 7, 0));
    ops := ops + [RecordOne("b", "c", Some("o"), 7, 0)];
  }

  /** It does happen: with two codes staged on one order, a replayed payment counts the second one too. */
  lemma TwoCodesOnOneOrderCountTwice()
    ensures exists ops :: var p := Run(ops);
              var paid := Order("o", Some("A"), "c", None);
              var once := Activate(p, paid, 0, 1);
              once.counts == map["a" := 1, "b" := 0] && Activate(once, paid, 1, 2).counts == map["a" := 1, "b" := 1]
  {
    var ops := TwoCodesStaged();
    var paid := Order("o", Some("A"), "c", None);
    hide Run;
    var once := Activate(Run(ops), paid, 0, 1);
    assert once.usages == [STAGED_A.(active := true), STAGED_B];
    assert once.counts == map["a" := 1, "b" := 0];
    assert Activate(once, paid, 1, 2).counts == map["a" := 1, "b" := 1];
  }

  /** Cancelling an order and paying it again counts its one usage again: nothing is lost or doubled. */
  lemma CancelThenPay(p: Promos, order: Order, found: nat, now: int)
    requires Agrees(p) && Given(order.code) && Single(p.usages, order.id)
    requires IsOn(p.usages, found, order.id) && p.usages[found].active
    ensures Activate(Deactivate(p, order.id), order, found, now) == p
  {
    var u := p.usages[found];
    assert u in p.usages;
    var off := Deactivate(p, order.id);
    forall i | 0 <= i < |p.usages| && i != found ensures off.usages[i] == p.usages[i] {
      assert !IsOn(p.usages, i, order.id);
    }
    assert off.usages == p.usages[found := u.(active := false)];
    forall id | id in p.counts ensures ActiveOn(p.usages, id, order.id) == if u.promo == id then 1 else 0 {
      SingleActiveOn(p.usages, found, order.id, id);
    }
    hide ActiveOn, Active;
  }

  lemma {:induction false} SingleActiveOn(us: seq<Usage>, found: nat, order: string, promo: string)
    requires Single(us, order) && IsOn(us, found, order) && us[found].active
    ensures ActiveOn(us, promo, order) == if us[found].promo == promo then 1 else 0
  {
    var n := |us| - 1;
    assert forall i: nat | i < n :: IsOn(us[..n], i, order) ==> IsOn(us, i, order);
    if found < n {
      assert !IsOn(us, n, order);
      assert IsOn(us[..n], found, order);
      SingleActiveOn(us[..n], found, order, promo);
    } else {
      forall i: nat | i < n ensures us[..n][i].order != Some(order) {
        assert !IsOn(us, i, order);
      }
      NoneActiveOn(us[..n], order, promo);
    }
  }

  lemma {:induction false} NoneActiveOn(us: seq<Usage>, order: string, promo: string)
    requires forall i: nat | i < |us| :: us[i].order != Some(order)
    ensures ActiveOn(us, promo, order) == 0
  {
    if us != [] {
      NoneActiveOn(us[..|us| - 1], order, promo);
    }
  }
}
