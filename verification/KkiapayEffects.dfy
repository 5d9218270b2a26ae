/** Which setting gives which key, secret and flag, and what one call does, spelled out. */
module KkiapayEffects {
  import opened Wrappers
  import opened KkiapayRows

  /** A setting counts when it is there and not empty. */
  predicate Filled(s: Option<string>) {
    s.Some? && |s.value| > 0
  }

  /** The database first, then the environment, then nothing. */
  function First(db: Option<string>, env: Option<string>): string {
    if Filled(db) then db.value else if env.Some? then env.value else ""
  }

  /** Main result: the global account is made of the global settings, each before its environment variable. */
  lemma GlobalAccountIs(w: World)
    ensures var a := GlobalAccount(w);
            && a.restaurant == None && a.expiresAt == w.now + 60_000
            && a.pub == First(w.global.pub, w.env.pub)
            && a.priv == First(w.global.priv, w.env.priv)
            && a.sec == First(w.global.sec, w.env.sec)
            && (a.sandbox <==> First(w.global.sandbox, w.env.sandbox) == "true")
  {
  }

  /**
   Main result: a restaurant's secret comes from its own setting only, the global one from the environment at
   last.
   */
  lemma SecretIs(w: World, id: Option<RestaurantId>)
    ensures SecretInForce(w, id) ==
              if id.None? then First(w.global.webhook, w.env.webhook)
              else if id.value in w.own then First(w.own[id.value].webhook, None)
              else ""
  {
  }

  predicate Cached(p: Process, key: string, now: int) {
    key in p.accounts && now < p.accounts[key].expiresAt
  }

  predicate HasKeys(w: World, r: string) {
    r in w.own && Filled(w.own[r].pub) && Filled(w.own[r].priv) && Filled(w.own[r].sec)
  }

  function Served(p: Process, key: string): Option<Account> {
    if key in p.accounts then Some(p.accounts[key]) else None
  }

  /** Main result: a live account is served as it is, without any read. */
  lemma HitEffect(p: Process, w: World, id: Option<RestaurantId>, ownOk: bool, globalOk: bool)
    requires Cached(p, if id.Some? then id.value else "__global__", w.now)
    ensures Resolve(p, w, id, ownOk, globalOk) == (p, Served(p, if id.Some? then id.value else "__global__"))
  {
  }

  /** Main result: without keys of its own, a restaurant gets the global account for a minute, if that can be read. */
  lemma FallbackEffect(p: Process, w: World, id: Option<RestaurantId>, ownOk: bool, globalOk: bool)
    requires var key := if id.Some? then id.value else "__global__"; !Cached(p, key, w.now)
    requires id.Some? && id.value != "" ==> ownOk && !HasKeys(w, id.value)
    ensures var key := if id.Some? then id.value else "__global__";
            Resolve(p, w, id, ownOk, globalOk) ==
              if globalOk then (p.(accounts := p.accounts[key := GlobalAccount(w)]), Some(GlobalAccount(w)))
                  else (p, None)
  {
  }

  /**
   Main result: when its settings cannot be read, a restaurant keeps the account it had, whatever its age, or
   gets none.
   */
  lemma FailureEffect(p: Process, w: World, id: RestaurantId, globalOk: bool)
    requires id != "" && !Cached(p, id, w.now)
    ensures Resolve(p, w, Some(id), false, globalOk) == (p, Served(p, id))
  {
  }

  /**
   Main result: with keys of its own, a restaurant gets its own account for a minute, with its own flag,
       else the flag of
   the global account in force; when that flag cannot be read, the account it had.
   */
  lemma DedicatedEffect(p: Process, w: World, id: RestaurantId, globalOk: bool)
    requires id != "" && !Cached(p, id, w.now) && HasKeys(w, id)
    ensures var s := w.own[id];
            var (p', a) := Resolve(p, w, Some(id), true, globalOk);
            var known := s.sandbox.Some? || Cached(p, "__global__", w.now) || globalOk;
            var flag := if s.sandbox.Some? then s.sandbox.value == "true"
                        else if Cached(p, "__global__", w.now) then p.accounts["__global__"].sandbox
                        else GlobalAccount(w).sandbox;
            if !known then p' == p && a == Served(p, id)
            else
              && a == Some(Account(Some(id), s.pub.value, s.priv.value, s.sec.value, flag, w.now + 60_000))
              && p'.secrets == p.secrets
              && p'.accounts == (if s.sandbox.Some? || Cached(p, "__global__", w.now) then p.accounts
                                 else p.accounts["__global__" := GlobalAccount(w)])[id := a.value]
  {
    hide OrEnv, Text;
  }

  /** Main result: a secret is served while fresh; then read again, and kept for a minute, or purged when it is gone. */
  lemma SecretEffect(p: Process, w: World, id: Option<RestaurantId>, readOk: bool)
    ensures var key := if id.Some? then id.value else "__global__";
            var value := SecretInForce(w, id);
            var (p', secret) := GetSecret(p, w, id, readOk);
            p'.accounts == p.accounts
            && if key in p.secrets && w.now < p.secrets[key].freshUntil then p' == p
                && secret == Some(p.secrets[key].value)
               else if readOk then
                 if value == "" then p'.secrets == p.secrets - {key} && secret == None
                 else p'.secrets == p.secrets[key := Secret(value, w.now + 60_000)] && secret == Some(value)
               else
                 && p' == p
                 && secret == if key in p.secrets then Some(p.secrets[key].value)
                              else if id.None? && Filled(w.env.webhook) then w.env.webhook
                              else None
  {
    hide SecretInForce;
  }
}
