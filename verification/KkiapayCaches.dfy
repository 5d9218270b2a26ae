/** What the caches may hold and serve, over every serial run of changes, waits, calls and failing reads. */
module KkiapayCaches {
  import opened Wrappers
  import opened KkiapayRows

  const MINUTE := 60_000

  function Now(start: World, events: seq<Event>, n: nat): int
    requires n <= |events|
  {
    At(start, events, n).world.now
  }

  /** The sandbox flag the account was built with, read at moment `i`, or less than a minute earlier when inherited. */
  ghost predicate SandboxBacked(start: World, events: seq<Event>, i: nat, r: string, sandbox: bool)
    requires i <= |events|
  {
    var own := SettingsOf(At(start, events, i).world, r).sandbox;
    if own.Some? then sandbox == (own.value == "true")
    else exists j: nat :: j <= i && Now(start, events, j) > Now(start, events, i) - MINUTE
                          && sandbox == GlobalSandbox(At(start, events, j).world)
  }

  /** Account `a`, kept under `key`, is what the settings said at moment `i`. */
  ghost predicate Backs(start: World, events: seq<Event>, i: nat, key: string, a: Account)
    requires i <= |events|
  {
    var w := At(start, events, i).world;
    var s := SettingsOf(w, key);
    match a.restaurant
    case Some(r) =>
      && r == key && key != GLOBAL && key != "" && Complete(s)
      && a.pub == s.pub.value && a.priv == s.priv.value && a.sec == s.sec.value
      && SandboxBacked(start, events, i, r, a.sandbox)
    case None =>
      && (key == GLOBAL || key == "" || !Complete(s))
      && a == GlobalAccount(w).(expiresAt := a.expiresAt)
  }

  ghost predicate Backed(start: World, events: seq<Event>, n: nat, key: string, a: Account)
    requires n <= |events|
  {
    exists i: nat :: i <= n && a.expiresAt == Now(start, events, i) + MINUTE && Backs(start, events, i, key, a)
  }

  lemma BackedLater(start: World, events: seq<Event>, n: nat, key: string, a: Account)
    requires n < |events| && Backed(start, events, n, key, a)
    ensures Backed(start, events, n + 1, key, a)
  {
    hide Backs, At, Now;
  }

  ghost predicate AllBacked(start: World, events: seq<Event>, n: nat)
    requires n <= |events|
  {
    var accounts := At(start, events, n).process.accounts;
    forall key | key in accounts :: Backed(start, events, n, key, accounts[key])
  }

  lemma GlobalIsBacked(start: World, events: seq<Event>, n: nat, key: string)
    requires n <= |events|
    requires var w := At(start, events, n).world; key == GLOBAL || key == "" || !Complete(SettingsOf(w, key))
    ensures Backed(start, events, n, key, GlobalAccount(At(start, events, n).world))
  {
    hide At, SettingsOf, Complete, OrEnv, Text;
    assert Backs(start, events, n, key, GlobalAccount(At(start, events, n).world));
  }

  /** The global account a dedicated one inherits its sandbox flag from is less than a minute old. */
  lemma InheritedIsBacked(start: World, events: seq<Event>, n: nat, globalOk: bool)
    requires n <= |events| && AllBacked(start, events, n)
    ensures var m := At(start, events, n);
            var (p, g) := ResolveGlobal(m.process, m.world, globalOk);
            && (forall key | key in p.accounts :: Backed(start, events, n, key, p.accounts[key]))
            && (g.Some? ==> exists j: nat :: j <= n && Now(start, events, j) > Now(start, events, n) - MINUTE
                                             && g.value.sandbox == GlobalSandbox(At(start, events, j).world))
  {
    var m := At(start, events, n);
    GlobalIsBacked(start, events, n, GLOBAL);
    if Fresh(m.process, m.world, GLOBAL) {
      var a := m.process.accounts[GLOBAL];
      assert Backed(start, events, n, GLOBAL, a);
      hide At;
      var i: nat :| i <= n && a.expiresAt == Now(start, events, i) + MINUTE && Backs(start, events, i, GLOBAL, a);
      assert a.restaurant.None?;
    }
    hide At, Backed;
  }

  lemma DedicatedIsBacked(start: World, events: seq<Event>, n: nat, r: string, sandbox: bool)
    requires n <= |events| && r != GLOBAL && r != ""
    requires Complete(SettingsOf(At(start, events, n).world, r))
    requires SandboxBacked(start, events, n, r, sandbox)
    ensures var w := At(start, events, n).world;
            var s := SettingsOf(w, r);
            Backed(start, events, n, r, Account(Some(r), s.pub.value, s.priv.value, s.sec.value, sandbox, w.now
                + MINUTE))
  {
    hide At, SettingsOf, SandboxBacked;
    var w := At(start, events, n).world;
    var s := SettingsOf(w, r);
    var a := Account(Some(r), s.pub.value, s.priv.value, s.sec.value, sandbox, w.now + MINUTE);
    assert Backs(start, events, n, r, a);
  }

  /** Whatever a call leaves in the cache, and whatever it serves, is backed. */
  lemma ResolveIsBacked(start: World, events: seq<Event>, n: nat, id: Option<RestaurantId>, ownOk: bool, globalOk: bool)
    requires n <= |events| && AllBacked(start, events, n)
    ensures var m := At(start, events, n);
            var (p, a) := Resolve(m.process, m.world, id, ownOk, globalOk);
            && (forall key | key in p.accounts :: Backed(start, events, n, key, p.accounts[key]))
            && (a.Some? ==> CacheKey(id) in p.accounts && p.accounts[CacheKey(id)] == a.value)
  {
    var m := At(start, events, n);
    var key := CacheKey(id);
    if key == GLOBAL || key == "" || !Complete(SettingsOf(m.world, key)) {
      GlobalIsBacked(start, events, n, key);
      hide At, Backed, GlobalAccount, SettingsOf, Complete;
    } else {
      DedicatedResolveIsBacked(start, events, n, id.value, ownOk, globalOk);
    }
  }

  lemma DedicatedResolveIsBacked(
    start: World, events: seq<Event>, n: nat, id: RestaurantId, ownOk: bool, globalOk: bool)
    requires n <= |events| && AllBacked(start, events, n)
    requires id != "" && Complete(SettingsOf(At(start, events, n).world, id))
    ensures var m := At(start, events, n);
            var (p, a) := Resolve(m.process, m.world, Some(id), ownOk, globalOk);
            && (forall key | key in p.accounts :: Backed(start, events, n, key, p.accounts[key]))
            && (a.Some? ==> id in p.accounts && p.accounts[id] == a.value)
  {
    var m := At(start, events, n);
    var s := SettingsOf(m.world, id);
    if s.sandbox.Some? {
      DedicatedIsBacked(start, events, n, id, s.sandbox.value == "true");
    } else {
      InheritedIsBacked(start, events, n, globalOk);
      if ResolveGlobal(m.process, m.world, globalOk).1.Some? {
        DedicatedIsBacked(start, events, n, id, ResolveGlobal(m.process, m.world, globalOk).1.value.sandbox);
      }
    }
    hide At, Backed, GlobalAccount, SettingsOf, Complete, SandboxBacked, GlobalSandbox, ResolveGlobal;
  }

  /** Main result: a cached account is always one the settings once described, at the moment its lifetime started. */
  lemma {:induction false} RunIsBacked(start: World, events: seq<Event>, n: nat)
    requires n <= |events|
    ensures AllBacked(start, events, n)
  {
    if n > 0 {
      RunIsBacked(start, events, n - 1);
      var accounts := Step(At(start, events, n - 1), events[n - 1]).process.accounts;
      assert At(start, events, n).process.accounts == accounts by { hide Step; }
      StepIsBacked(start, events, n - 1, accounts);
      hide Step, Backed, At;
      StaysBacked(start, events, n - 1, accounts);
    }
  }

  lemma StaysBacked(start: World, events: seq<Event>, n: nat, accounts: map<string, Account>)
    requires n < |events| && forall key | key in accounts :: Backed(start, events, n, key, accounts[key])
    ensures forall key | key in accounts :: Backed(start, events, n + 1, key, accounts[key])
  {
    forall key | key in accounts ensures Backed(start, events, n + 1, key, accounts[key]) {
      BackedLater(start, events, n, key, accounts[key]);
    }
  }

  lemma StepIsBacked(start: World, events: seq<Event>, n: nat, accounts: map<string, Account>)
    requires n < |events| && AllBacked(start, events, n)
    requires accounts == Step(At(start, events, n), events[n]).process.accounts
    ensures forall key | key in accounts :: Backed(start, events, n, key, accounts[key])
  {
    var e := events[n];
    if e.AskAccount? {
      ResolveIsBacked(start, events, n, e.id, e.ownOk, e.globalOk);
    }
    hide Backed, At, Resolve;
  }

  /** `a` is what the settings said less than a minute ago. */
  ghost predicate Recent(start: World, events: seq<Event>, n: nat, key: string, a: Account)
    requires n <= |events|
  {
    exists i: nat :: i <= n && Now(start, events, i) > Now(start, events, n) - MINUTE && Backs(start, events, i, key, a)
  }

  /**
   Main result: when no read fails, a call serves an account the settings described less than 60 s ago: for a
   dedicated account, its three keys (and its own sandbox flag); an inherited flag is less than 120 s old.
   */
  lemma ServedIsRecent(start: World, events: seq<Event>, n: nat, id: Option<RestaurantId>)
    requires n <= |events|
    ensures var m := At(start, events, n);
            var a := Resolve(m.process, m.world, id, true, true).1;
            a.Some? && Recent(start, events, n, CacheKey(id), a.value)
  {
    RunIsBacked(start, events, n);
    ResolveIsBacked(start, events, n, id, true, true);
    var m := At(start, events, n);
    ServedIsAlive(m.process, m.world, id);
    hide Resolve, At, Backs;
    var a := Resolve(m.process, m.world, id, true, true).1;
    var i: nat :| i <= n && a.value.expiresAt == Now(start, events, i) + MINUTE
        && Backs(start, events, i, CacheKey(id), a.value);
  }

  lemma ServedIsAlive(p: Process, w: World, id: Option<RestaurantId>)
    ensures var a := Resolve(p, w, id, true, true).1; a.Some? && a.value.expiresAt > w.now
  {
    hide SettingsOf, GlobalSandbox, OrEnv, Text;
  }

  /** A dedicated account's flag: the restaurant's own, less than 60 s old, or the global one, less than 120 s old. */
  lemma SandboxIsRecent(start: World, events: seq<Event>, n: nat, id: RestaurantId)
    requires n <= |events|
    ensures var m := At(start, events, n);
            var a := Resolve(m.process, m.world, Some(id), true, true).1;
            && a.Some?
            && (a.value.restaurant == None
                || (exists i: nat :: i <= n && Now(start, events, i) > Now(start, events, n) - MINUTE
                      && SettingsOf(At(start, events, i).world, id).sandbox.Some?
                      && a.value.sandbox == (SettingsOf(At(start, events, i).world, id).sandbox.value == "true"))
                || exists j: nat :: j <= n && Now(start, events, j) > Now(start, events, n) - 2 * MINUTE
                      && a.value.sandbox == GlobalSandbox(At(start, events, j).world))
  {
    ServedIsRecent(start, events, n, Some(id));
    hide At, Resolve, GlobalSandbox, SettingsOf, Complete, Now;
    var m := At(start, events, n);
    var a := Resolve(m.process, m.world, Some(id), true, true).1;
    var i: nat :| i <= n && Now(start, events, i) > Now(start, events, n) - MINUTE
        && Backs(start, events, i, id, a.value);
    if a.value.restaurant.Some? {
      assert SandboxBacked(start, events, i, id, a.value.sandbox);
    }
  }

  /** What a restaurant's keys say its account is. */
  ghost predicate Follows(a: Account, r: string, s: Settings) {
    if s.pub.Some? && s.pub.value != "" && s.priv.Some? && s.priv.value != "" && s.sec.Some?
        && s.sec.value != "" then a.restaurant == Some(r) && a.pub == s.pub.value && a.priv == s.priv.value
        && a.sec == s.sec.value
    else a.restaurant == None
  }

  /**
   Main result: sixty seconds after the last change of a restaurant's keys, every process serves exactly what
   they say, the dedicated account when they are complete and the global one when they are not.
   */
  lemma KeysConverge(start: World, events: seq<Event>, n: nat, id: RestaurantId, s: Settings)
    requires n <= |events| && id != ""
    requires forall i: nat | i <= n && Now(start, events, i) > Now(start, events, n) - MINUTE ::
               SettingsOf(At(start, events, i).world, id) == s
    ensures var m := At(start, events, n);
            var a := Resolve(m.process, m.world, Some(id), true, true).1;
            a.Some? && Follows(a.value, id, s)
  {
    ServedIsRecent(start, events, n, Some(id));
    hide At, Resolve, SandboxBacked, GlobalSandbox, OrEnv, Complete;
    var m := At(start, events, n);
    var a := Resolve(m.process, m.world, Some(id), true, true).1;
    var i: nat :| i <= n && Now(start, events, i) > Now(start, events, n) - MINUTE
        && Backs(start, events, i, id, a.value);
  }

  /**
   Main result: even when reads fail, a restaurant is served the global account only because a successful
   read once found its keys incomplete, never because of the failure itself.
   */
  lemma NoPoisoning(start: World, events: seq<Event>, n: nat, id: RestaurantId, ownOk: bool, globalOk: bool)
    requires n <= |events| && id != ""
    ensures var m := At(start, events, n);
            var a := Resolve(m.process, m.world, Some(id), ownOk, globalOk).1;
            a.Some? && a.value.restaurant != Some(id) ==>
              exists i: nat :: i <= n && a.value.expiresAt == Now(start, events, i) + MINUTE
                               && !Complete(SettingsOf(At(start, events, i).world, id))
  {
    RunIsBacked(start, events, n);
    ResolveIsBacked(start, events, n, Some(id), ownOk, globalOk);
    var m := At(start, events, n);
    hide At, Resolve, SandboxBacked, GlobalSandbox, OrEnv, Complete, SettingsOf;
    var a := Resolve(m.process, m.world, Some(id), ownOk, globalOk).1;
    if a.Some? && a.value.restaurant != Some(id) {
      var i: nat :| i <= n && a.value.expiresAt == Now(start, events, i) + MINUTE
          && Backs(start, events, i, id, a.value);
    }
  }

  // ---- Webhook secrets -------------------------------------------------------------------------------

  ghost predicate SecretBacked(start: World, events: seq<Event>, n: nat, id: Option<RestaurantId>, x: Secret)
    requires n <= |events|
  {
    x.value != "" && exists i: nat :: i <= n && x.freshUntil == Now(start, events, i) + MINUTE
                                      && x.value == SecretInForce(At(start, events, i).world, id)
  }

  ghost predicate SecretKnown(start: World, events: seq<Event>, n: nat, id: Option<RestaurantId>)
    requires n <= |events|
  {
    var secrets := At(start, events, n).process.secrets;
    CacheKey(id) in secrets ==> SecretBacked(start, events, n, id, secrets[CacheKey(id)])
  }

  lemma SecretStep(start: World, events: seq<Event>, n: nat, id: Option<RestaurantId>)
    requires n < |events| && SecretKnown(start, events, n, id)
    ensures SecretKnown(start, events, n + 1, id)
  {
    var m := At(start, events, n);
    assert At(start, events, n + 1) == Step(m, events[n]);
    if events[n].AskAccount? {
      AccountsLeaveSecrets(m.process, m.world, events[n].id, events[n].ownOk, events[n].globalOk);
    }
    hide At, Resolve, SecretInForce;
    var secrets := m.process.secrets;
    var secrets' := At(start, events, n + 1).process.secrets;
    if CacheKey(id) in secrets' && CacheKey(id) in secrets && secrets'[CacheKey(id)] == secrets[CacheKey(id)] {
    } else if CacheKey(id) in secrets' {
      assert CacheKey(events[n].of) == CacheKey(id);
      assert events[n].of == id;
      assert secrets'[CacheKey(id)] == Secret(SecretInForce(m.world, id), m.world.now + MINUTE);
    }
  }

  lemma AccountsLeaveSecrets(p: Process, w: World, id: Option<RestaurantId>, ownOk: bool, globalOk: bool)
    ensures Resolve(p, w, id, ownOk, globalOk).0.secrets == p.secrets
  {
    hide SettingsOf, Complete, GlobalAccount;
  }

  lemma {:induction false} SecretsAreKnown(start: World, events: seq<Event>, n: nat, id: Option<RestaurantId>)
    requires n <= |events|
    ensures SecretKnown(start, events, n, id)
  {
    if n > 0 {
      SecretsAreKnown(start, events, n - 1, id);
      SecretStep(start, events, n - 1, id);
    }
  }

  /**
   Main result: sixty seconds after the last rotation, a process whose reads succeed accepts only the secret in
   force.
   */
  lemma SecretConverges(start: World, events: seq<Event>, n: nat, id: Option<RestaurantId>, secret: string)
    requires n <= |events|
    requires forall i: nat | i <= n && Now(start, events, i) > Now(start, events, n) - MINUTE ::
               SecretInForce(At(start, events, i).world, id) == secret
    ensures var m := At(start, events, n);
            GetSecret(m.process, m.world, id, true).1 == if secret == "" then None else Some(secret)
  {
    SecretsAreKnown(start, events, n, id);
    hide At, SecretInForce;
    var m := At(start, events, n);
    assert Now(start, events, n) > Now(start, events, n) - MINUTE;
    var key := CacheKey(id);
    if key in m.process.secrets && m.process.secrets[key].freshUntil > m.world.now {
      var x := m.process.secrets[key];
      var i: nat :| i <= n && x.freshUntil == Now(start, events, i) + MINUTE
          && x.value == SecretInForce(At(start, events, i).world, id);
    }
  }

  /**
   When the read fails, the last known secret still serves, then the environment's; only with neither is there
   none.
   */
  lemma LastResort(start: World, events: seq<Event>, n: nat, id: Option<RestaurantId>)
    requires n <= |events|
    ensures var m := At(start, events, n);
            var served := GetSecret(m.process, m.world, id, false).1;
            if CacheKey(id) in m.process.secrets
            then
              && served.Some?
              && exists i: nat :: i <= n && served.value == SecretInForce(At(start, events, i).world, id)
            else if Truthy(EnvSecret(m.world, id)) then served == EnvSecret(m.world, id)
            else served.None?
  {
    SecretsAreKnown(start, events, n, id);
    hide At, SecretInForce, Now;
    var m := At(start, events, n);
    var key := CacheKey(id);
    if key in m.process.secrets {
      assert SecretBacked(start, events, n, id, m.process.secrets[key]);
    }
  }

  /** Main result: once a process has read that a secret is gone, no later call accepts it, even when reads fail. */
  lemma {:induction false} RevokedSecretStaysRevoked(
    start: World, events: seq<Event>, n: nat, m: nat, id: Option<RestaurantId>, ok: bool)
    requires n <= m <= |events|
    requires CacheKey(id) !in At(start, events, n).process.secrets
    requires forall i: nat | n <= i <= m :: SecretInForce(At(start, events, i).world, id) == ""
    ensures CacheKey(id) !in At(start, events, m).process.secrets
    ensures GetSecret(At(start, events, m).process, At(start, events, m).world, id, ok).1 == None
    decreases m
  {
    if n < m {
      RevokedSecretStaysRevoked(start, events, n, m - 1, id, ok);
      var was := At(start, events, m - 1);
      assert At(start, events, m) == Step(was, events[m - 1]);
      if events[m - 1].AskAccount? {
        AccountsLeaveSecrets(was.process, was.world, events[m - 1].id, events[m - 1].ownOk, events[m - 1].globalOk);
      } else if events[m - 1].AskSecret? && CacheKey(events[m - 1].of) == CacheKey(id) {
        assert events[m - 1].of == id;
      }
      hide Resolve;
      assert CacheKey(id) !in At(start, events, m).process.secrets by { hide At; }
    }
    hide At, Resolve;
    assert SecretInForce(At(start, events, m).world, id) == "";
  }
}
