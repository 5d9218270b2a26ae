/**
 KKiaPay accounts and webhook secrets (src/kkiapay/kkiapay.service.ts): settings as the database and the
 environment hold them, and the two caches of one process. Times are in milliseconds; a call happens at
 one instant, and each call says which of its settings reads succeed.
 */
module KkiapayRows {
  import opened Wrappers

  const TTL := 60_000

  const GLOBAL := "__global__"

  type RestaurantId = s: string | s != GLOBAL witness ""

  datatype Settings = Settings(pub: Option<string>, priv: Option<string>, sec: Option<string>, sandbox: Option<string>,
      webhook: Option<string>)

  const Nothing := Settings(None, None, None, None, None)

  /** `env` is the fallback of the global settings only. */
  datatype World = World(own: map<string, Settings>, global: Settings, env: Settings, now: int)

  datatype Account = Account(restaurant: Option<string>, pub: string, priv: string, sec: string, sandbox: bool,
      expiresAt: int)

  datatype Secret = Secret(value: string, freshUntil: int)

  datatype Process = Process(accounts: map<string, Account>, secrets: map<string, Secret>)

  function CacheKey(id: Option<RestaurantId>): string {
    if id.Some? then id.value else GLOBAL
  }

  function SettingsOf(w: World, r: string): Settings {
    if r in w.own then w.own[r] else Nothing
  }

  predicate Truthy(s: Option<string>) {
    s.Some? && s.value != ""
  }

  function OrEnv(db: Option<string>, env: Option<string>): Option<string> {
    if Truthy(db) then db else env
  }

  function Text(s: Option<string>): string {
    if s.Some? then s.value else ""
  }

  predicate Complete(s: Settings) {
    Truthy(s.pub) && Truthy(s.priv) && Truthy(s.sec)
  }

  function GlobalSandbox(w: World): bool {
    OrEnv(w.global.sandbox, w.env.sandbox) == Some("true")
  }

  function GlobalAccount(w: World): Account {
    Account(None, Text(OrEnv(w.global.pub, w.env.pub)), Text(OrEnv(w.global.priv, w.env.priv)),
            Text(OrEnv(w.global.sec, w.env.sec)), GlobalSandbox(w), w.now + TTL)
  }

  // ---- Accounts --------------------------------------------------------------------------------------

  /** `fallback` is the global path: it throws without caching anything. */
  function StoreGlobal(p: Process, w: World, key: string, readOk: bool): (Process, Option<Account>) {
    if readOk then (p.(accounts := p.accounts[key := GlobalAccount(w)]), Some(GlobalAccount(w)))
    else (p, None)
  }

  predicate Fresh(p: Process, w: World, key: string) {
    key in p.accounts && p.accounts[key].expiresAt > w.now
  }

  function ResolveGlobal(p: Process, w: World, readOk: bool): (Process, Option<Account>) {
    if Fresh(p, w, GLOBAL) then (p, Some(p.accounts[GLOBAL])) else StoreGlobal(p, w, GLOBAL, readOk)
  }

  function Stale(p: Process, key: string): (Process, Option<Account>) {
    (p, if key in p.accounts then Some(p.accounts[key]) else None)
  }

  /** None is the error passed on to the caller; `ownOk` and `globalOk` say which reads succeed. */
  function Resolve(
    p: Process, w: World, id: Option<RestaurantId>, ownOk: bool, globalOk: bool): (Process, Option<Account>) {
    var key := CacheKey(id);
    if Fresh(p, w, key) then (p, Some(p.accounts[key]))
    else if id.None? || id.value == "" then StoreGlobal(p, w, key, globalOk)
    else if !ownOk then Stale(p, key)
    else
      var s := SettingsOf(w, id.value);
      if !Complete(s) then StoreGlobal(p, w, key, globalOk)
      else
        var inherited := if s.sandbox.Some? then (p, None) else ResolveGlobal(p, w, globalOk);
        if s.sandbox.None? && inherited.1.None? then Stale(p, key)
        else
          var sandbox := if s.sandbox.Some? then s.sandbox.value == "true" else inherited.1.value.sandbox;
          var a := Account(Some(id.value), s.pub.value, s.priv.value, s.sec.value, sandbox, w.now + TTL);
          (inherited.0.(accounts := inherited.0.accounts[key := a]), Some(a))
  }

  // ---- Webhook secrets -------------------------------------------------------------------------------

  function EnvSecret(w: World, id: Option<RestaurantId>): Option<string> {
    if id.None? then w.env.webhook else None
  }

  /** The secret in force: "" when there is none. */
  function SecretInForce(w: World, id: Option<RestaurantId>): string {
    var db := if id.None? then w.global.webhook else SettingsOf(w, id.value).webhook;
    if Truthy(db) then db.value else Text(EnvSecret(w, id))
  }

  function GetSecret(p: Process, w: World, id: Option<RestaurantId>, readOk: bool): (Process, Option<string>) {
    var key := CacheKey(id);
    var value := SecretInForce(w, id);
    if key in p.secrets && p.secrets[key].freshUntil > w.now then (p, Some(p.secrets[key].value))
    else if readOk && value != "" then (p.(secrets := p.secrets[key := Secret(value, w.now + TTL)]), Some(value))
    else if readOk then (p.(secrets := p.secrets - {key}), None)
    else if key in p.secrets then (p, Some(p.secrets[key].value))
    else (p, if Truthy(EnvSecret(w, id)) then EnvSecret(w, id) else None)
  }

  // ---- Serial runs -----------------------------------------------------------------------------------

  datatype Event =
    | Change(own: map<string, Settings>, global: Settings)
    | Wait(ms: nat)
    | AskAccount(id: Option<RestaurantId>, ownOk: bool, globalOk: bool)
    | AskSecret(of: Option<RestaurantId>, readOk: bool)

  datatype Moment = Moment(world: World, process: Process)

  function Step(m: Moment, e: Event): Moment {
    match e
    case Change(own, global) => m.(world := m.world.(own := own, global := global))
    case Wait(ms) => m.(world := m.world.(now := m.world.now + ms))
    case AskAccount(id, ownOk, globalOk) => m.(process := Resolve(m.process, m.world, id, ownOk, globalOk).0)
    case AskSecret(id, ok) => m.(process := GetSecret(m.process, m.world, id, ok).0)
  }

  /** The `n`-th moment of a process that starts with empty caches. */
  function At(start: World, events: seq<Event>, n: nat): Moment
    requires n <= |events|
  {
    if n == 0 then Moment(start, Process(map[], map[])) else Step(At(start, events, n - 1), events[n - 1])
  }
}
