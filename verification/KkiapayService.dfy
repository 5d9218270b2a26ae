/** The caches as the service fills them, and what it does with the accounts it resolves. */
module KkiapayService {
  import opened Wrappers
  import opened KkiapayRows

  /** What the payment API answers: it knows the transaction, does not, or cannot be reached (network, 5xx). */
  datatype Reply = Known | Unknown | Unreachable

  datatype Outcome = Verified(collectedBy: Option<string>) | Refunded | NotFound | TryLater | NotConfigured

  class Kkiapay {
    var accountCache: map<string, Account>
    var webhookSecretCache: map<string, Secret>

    constructor ()
      ensures State() == Process(map[], map[])
    {
      accountCache, webhookSecretCache := map[], map[];
    }

    function State(): Process
      reads this
    {
      Process(accountCache, webhookSecretCache)
    }

    method ResolveAccount(id: Option<RestaurantId>, w: World, ownOk: bool, globalOk: bool) returns (r: Option<Account>)
      modifies this
      ensures (State(), r) == Resolve(old(State()), w, id, ownOk, globalOk)
      decreases id.Some?
    {
      var key := CacheKey(id);
      if key in accountCache && accountCache[key].expiresAt > w.now {
        return Some(accountCache[key]);
      }
      var account: Option<Account> := None;
      if id.Some? && id.value != "" {
        var failed := !ownOk;
        if !failed {
          var s := SettingsOf(w, id.value);
          if Complete(s) {
            var sandbox := s.sandbox.Some? && s.sandbox.value == "true";
            if s.sandbox.None? {
              var inherited := ResolveAccount(None, w, ownOk, globalOk);
              failed := inherited.None?;
              sandbox := inherited.Some? && inherited.value.sandbox;
            }
            if !failed {
              account := Some(Account(Some(id.value), s.pub.value, s.priv.value, s.sec.value, sandbox, w.now + TTL));
            }
          }
        }
        if failed {
          return if key in accountCache then Some(accountCache[key]) else None;
        }
      }
      if account.None? {
        if !globalOk {
          return None;
        }
        account := Some(GlobalAccount(w));
      }
      accountCache := accountCache[key := account.value];
      return account;
    }

    method GetWebhookSecret(id: Option<RestaurantId>, w: World, readOk: bool) returns (r: Option<string>)
      modifies this
      ensures (State(), r) == GetSecret(old(State()), w, id, readOk)
    {
      var key := CacheKey(id);
      if key in webhookSecretCache && webhookSecretCache[key].freshUntil > w.now {
        return Some(webhookSecretCache[key].value);
      }
      if readOk {
        var value := SecretInForce(w, id);
        if value != "" {
          webhookSecretCache := webhookSecretCache[key := Secret(value, w.now + TTL)];
          return Some(value);
        }
        webhookSecretCache := webhookSecretCache - {key};
        return None;
      }
      if key in webhookSecretCache {
        return Some(webhookSecretCache[key].value);
      }
      return if Truthy(EnvSecret(w, id)) then EnvSecret(w, id) else None;
    }

    /**
     Who collected a transaction: the dedicated account is asked first, the global one only when the
     dedicated one truly does not know it, and a transaction is "not found" only when every account that
     could have collected it said so.
     */
    method VerifyTransaction(
      tx: string, id: Option<RestaurantId>, w: World, ownOk: bool, globalOk: bool, ask: (Account, string) -> Reply)
      returns (o: Outcome)
      modifies this
      ensures tx == "" ==> o == NotFound && State() == old(State())
      ensures tx != "" ==>
                var (p, a) := Resolve(old(State()), w, id, ownOk, globalOk);
                var (p', g) := Resolve(p, w, None, ownOk, globalOk);
                && (o.Verified? && o.collectedBy.Some? <==>
                    a.Some? && a.value.restaurant.Some? && ask(a.value, tx) == Known)
                && (o.Verified? && o.collectedBy.Some? ==> o.collectedBy == a.value.restaurant)
                && (o == Verified(None) <==>
                    || (a.Some? && a.value.restaurant.None? && ask(a.value, tx) == Known)
                    || (a.Some? && a.value.restaurant.Some? && ask(a.value, tx) == Unknown && g.Some?
                        && ask(g.value, tx) == Known))
                && (o == NotFound <==> a.Some? && ask(a.value, tx) == Unknown
                                       && (a.value.restaurant.Some? ==> g.Some? && ask(g.value, tx) == Unknown))
                && (o == TryLater <==>
                    || a.None? || ask(a.value, tx) == Unreachable
                    || (ask(a.value, tx) == Unknown && a.value.restaurant.Some?
                        && (g.None? || ask(g.value, tx) == Unreachable)))
                && !o.Refunded? && !o.NotConfigured?
                && State() == if a.Some? && ask(a.value, tx) == Unknown && a.value.restaurant.Some? then p' else p
    {
      if tx == "" {
        return NotFound;
      }
      var a := ResolveAccount(id, w, ownOk, globalOk);
      if a.None? {
        return TryLater;
      }
      match ask(a.value, tx) {
        case Known => return Verified(a.value.restaurant);
        case Unreachable => return TryLater;
        case Unknown =>
      }
      if a.value.restaurant.None? {
        return NotFound;
      }
      var g := ResolveAccount(None, w, ownOk, globalOk);
      if g.None? {
        return TryLater;
      }
      match ask(g.value, tx) {
        case Known => return Verified(None);
        case Unreachable => return TryLater;
        case Unknown => return NotFound;
      }
    }

    /** A refund is sent to the very account it is asked for, or to none. */
    method RefundTransaction(
      tx: string, id: Option<RestaurantId>, w: World, ownOk: bool, globalOk: bool, send: (Account, string) -> Reply)
      returns (o: Outcome, sentTo: Option<Account>)
      modifies this
      ensures sentTo.Some? && id.Some? ==> sentTo.value.restaurant == id
      ensures sentTo.Some? <==> tx != "" && Resolve(old(State()), w, id, ownOk, globalOk).1.Some?
                                && (id.Some? ==> Resolve(old(State()), w, id, ownOk, globalOk).1.value.restaurant == id)
      ensures sentTo.Some? ==> sentTo == Resolve(old(State()), w, id, ownOk, globalOk).1
      ensures o == Refunded <==> sentTo.Some? && send(sentTo.value, tx) == Known
      ensures o == NotFound <==> tx == "" || (sentTo.Some? && send(sentTo.value, tx) == Unknown)
      ensures o == NotConfigured ==> id.Some? && sentTo.None?
      ensures o.Refunded? || o.NotFound? || o.NotConfigured? || o.TryLater?
      ensures State() == if tx == "" then old(State()) else Resolve(old(State()), w, id, ownOk, globalOk).0
    {
      if tx == "" {
        return NotFound, None;
      }
      var a := ResolveAccount(id, w, ownOk, globalOk);
      if a.None? {
        return TryLater, None;
      }
      if id.Some? && a.value.restaurant != id {
        return NotConfigured, None;
      }
      match send(a.value, tx) {
        case Known => return Refunded, a;
        case Unreachable => return TryLater, a;
        case Unknown => return NotFound, a;
      }
    }
  }
}
