/**
 The gateway's connection cache (src/socket-io/gateways/app.gateway.ts). Identifying a user is cut at its one
 await: a lookup that remembers the time, a database read at some later moment, and a store that still uses
 the time of the lookup. Any number of identifications interleave.
 */
module AuthCache {
  import opened Wrappers

  const TTL := 10_000
  const MAX := 2000

  datatype Kind = Staff | Customer | Deliverer

  datatype User = User(kind: Kind, id: string)

  /** `details` is what else the connection needs: the role, the restaurant. */
  datatype Record = Record(user: User, details: string)

  datatype Entry = Entry(found: Record, expiresAt: int)

  type Cache = map<string, Entry>

  function Name(kind: Kind): string {
    match kind
    case Staff => "user"
    case Customer => "customer"
    case Deliverer => "deliverer"
  }

  function AuthKey(u: User): string {
    Name(u.kind) + "_" + u.id
  }

  lemma KeyTellsUser(u: User, v: User)
    requires AuthKey(u) == AuthKey(v)
    ensures u == v
  {
    var k := AuthKey(u);
    assert k[0] == Name(u.kind)[0] == Name(v.kind)[0];
    assert k[|Name(u.kind)| + 1..] == u.id && k[|Name(v.kind)| + 1..] == v.id;
  }

  function LookUp(c: Cache, key: string, now: int): (Cache, Option<Record>) {
    if key !in c then (c, None)
    else if c[key].expiresAt > now then (c, Some(c[key].found))
    else (c - {key}, None)
  }

  function Alive(c: Cache, now: int): Cache {
    map k | k in c && c[k].expiresAt > now :: c[k]
  }

  ghost predicate Within(c: Cache, whole: Cache) {
    forall k | k in c :: k in whole && c[k] == whole[k]
  }

  /** What is left out expires no later than what is kept. */
  ghost predicate KeepsLatest(c: Cache, whole: Cache) {
    forall k, j | k in whole && k !in c && j in c :: whole[k].expiresAt <= c[j].expiresAt
  }

  /** Expired entries go first, then the oldest ones, down to the limit and no further; ties may fall either way. */
  ghost predicate Evicted(c: Cache, now: int, c': Cache) {
    var alive := Alive(c, now);
    Within(c', alive) && KeepsLatest(c', alive) && |c'| == if |alive| <= MAX then |alive| else MAX
  }

  ghost predicate Remembered(c: Cache, key: string, found: Record, now: int, c': Cache) {
    var full := c[key := Entry(found, now + TTL)];
    if |full| > MAX then Evicted(full, now, c') else c' == full
  }

  lemma OldestMayGo(c: Cache, whole: Cache, k: string)
    requires Within(c, whole) && KeepsLatest(c, whole)
    requires k in c && forall j | j in c :: c[k].expiresAt <= c[j].expiresAt
    ensures Within(c - {k}, whole) && KeepsLatest(c - {k}, whole) && |c - {k}| == |c| - 1
  {
    assert c.Keys == (c - {k}).Keys + {k};
  }

  lemma RoomForOneMore(c: Cache, key: string, e: Entry)
    ensures |c[key := e]| <= |c| + 1
  {
    assert c[key := e].Keys == c.Keys + {key};
  }

  /** Main result: a record is served exactly while it is alive; a dead one is forgotten on the way. */
  lemma LookUpIff(c: Cache, key: string, now: int)
    ensures var (c', hit) := LookUp(c, key, now);
            && (hit.Some? <==> key in c && now < c[key].expiresAt)
            && (hit.Some? ==> hit.value == c[key].found && c' == c)
            && (hit.None? ==> c' == c - {key})
  {
  }

  /** Main result: with room, a record is stored for ten seconds and nothing else changes. */
  lemma StoredForTenSeconds(c: Cache, key: string, found: Record, now: int, c': Cache)
    requires Remembered(c, key, found, now, c') && |c| < 2000
    ensures c' == c[key := Entry(found, now + 10_000)]
  {
    RoomForOneMore(c, key, Entry(found, now + TTL));
  }

  /**
   Main result: a full cache of live records makes room by forgetting one of those that expire first, and no
   other.
   */
  lemma OverflowForgetsOne(c: Cache, key: string, found: Record, now: int, c': Cache)
    requires Remembered(c, key, found, now, c') && |c| == 2000 && key !in c
    requires forall k | k in c :: c[k].expiresAt > now
    ensures var full := c[key := Entry(found, now + 10_000)];
            exists k :: k in full && c' == full - {k} && forall j | j in full :: full[k].expiresAt <= full[j].expiresAt
  {
    var full := c[key := Entry(found, now + 10_000)];
    assert full.Keys == c.Keys + {key};
    assert |full| == 2001;
    OneTooMany(full, now, c');
  }

  lemma OneTooMany(full: Cache, now: int, c': Cache)
    requires |full| == 2001 && Evicted(full, now, c') && forall k | k in full :: full[k].expiresAt > now
    ensures exists k :: k in full && c' == full - {k} && forall j | j in full :: full[k].expiresAt <= full[j].expiresAt
  {
    assert Alive(full, now) == full;
    hide Alive;
    var gone := full.Keys - c'.Keys;
    assert c'.Keys <= full.Keys;
    assert full.Keys == gone + c'.Keys;
    var k :| k in gone;
    OnlyOne(gone, k);
    assert c' == full - {k};
    assert forall j | j in full && j != k :: j in c';
  }

  /** Main result: making room drops every dead record, and a live one only when more than 2000 are alive. */
  lemma EvictionEffect(c: Cache, now: int, c': Cache)
    requires Evicted(c, now, c')
    ensures forall k | k in c' :: k in c && c'[k] == c[k] && c[k].expiresAt > now
    ensures var alive := set k | k in c && c[k].expiresAt > now;
            && (|alive| <= 2000 ==> forall k | k in alive :: k in c')
            && (|alive| >= 2000 ==> |c'| == 2000)
  {
    var alive := set k | k in c && c[k].expiresAt > now;
    assert Alive(c, now).Keys == alive;
    if |alive| <= 2000 {
      assert c'.Keys <= alive;
      assert alive == c'.Keys + (alive - c'.Keys);
    }
  }

  lemma OnlyOne<T>(s: set<T>, x: T)
    requires x in s && |s| == 1
    ensures s == {x}
  {
    assert |s - {x}| == 0;
    assert s == s - {x} + {x};
  }

  // ---- The cache -------------------------------------------------------------------------------------

  class ConnectionCache {
    var authCache: Cache

    constructor ()
      ensures authCache == map[]
    {
      authCache := map[];
    }

    method LookUpUser(key: string, now: int) returns (hit: Option<Record>)
      modifies this
      ensures (authCache, hit) == LookUp(old(authCache), key, now)
    {
      hit := None;
      if key in authCache {
        if authCache[key].expiresAt > now {
          hit := Some(authCache[key].found);
        } else {
          authCache := authCache - {key};
        }
      }
    }

    method StoreUser(key: string, found: Record, now: int)
      modifies this
      ensures Remembered(old(authCache), key, found, now, authCache)
    {
      authCache := authCache[key := Entry(found, now + TTL)];
      if |authCache| > MAX {
        EvictCache(now);
      }
    }

    method EvictCache(now: int)
      modifies this
      ensures Evicted(old(authCache), now, authCache)
    {
      ghost var was := authCache;
      var todo := authCache.Keys;
      while todo != {}
        invariant todo <= was.Keys
        invariant authCache == map k | k in was && (k in todo || was[k].expiresAt > now) :: was[k]
        decreases todo
      {
        var k :| k in todo;
        if authCache[k].expiresAt <= now {
          authCache := authCache - {k};
        }
        todo := todo - {k};
      }
      ghost var alive := Alive(was, now);
      assert authCache == alive;
      while |authCache| > MAX
        invariant Within(authCache, alive) && KeepsLatest(authCache, alive)
        invariant |authCache| == |alive| || (MAX <= |authCache| && |authCache| <= |alive|)
        decreases |authCache|
      {
        hide Alive;
        var k := Oldest();
        OldestMayGo(authCache, alive, k);
        authCache := authCache - {k};
      }
    }

    method Oldest() returns (k: string)
      requires authCache != map[]
      ensures k in authCache && forall j | j in authCache :: authCache[k].expiresAt <= authCache[j].expiresAt
    {
      k :| k in authCache;
      var todo := authCache.Keys;
      while todo != {}
        invariant todo <= authCache.Keys && k in authCache
        invariant forall j | j in authCache && j !in todo :: authCache[k].expiresAt <= authCache[j].expiresAt
        decreases todo
      {
        var j :| j in todo;
        if authCache[j].expiresAt < authCache[k].expiresAt {
          k := j;
        }
        todo := todo - {j};
      }
    }
  }

  // ---- Interleaved identifications --------------------------------------------------------------------

  datatype Task =
    | Asked(asks: User, since: int)
    | Answered(asks: User, since: int, result: Option<Record>)

  /** A record the database returned, and when. */
  datatype Read = Read(found: Record, at: int)

  datatype System = System(cache: Cache, tasks: map<nat, Task>, seen: set<Read>, now: int)

  datatype Event =
    | Ask(task: nat, who: User)
    | DatabaseAnswers(task: nat, details: Option<string>)
    | DatabaseFails(task: nat)
    | Store(task: nat)
    | Wait(ms: nat)

  const Start := System(map[], map[], {}, 0)

  function Asking(s: System, task: nat, who: User): System {
    if task in s.tasks || who.id == "" then s
    else
      var (cache, hit) := LookUp(s.cache, AuthKey(who), s.now);
      s.(cache := cache, tasks := if hit.Some? then s.tasks else s.tasks[task := Asked(who, s.now)])
  }

  /** The database answers with the row of the id asked for, as it stands now, or with none. */
  function Answering(s: System, task: nat, details: Option<string>): System {
    if task in s.tasks && s.tasks[task].Asked? then
      var t := s.tasks[task];
      var result := if details.Some? then Some(Record(t.asks, details.value)) else None;
      s.(tasks := s.tasks[task := Answered(t.asks, t.since, result)],
         seen := if result.Some? then s.seen + {Read(result.value, s.now)} else s.seen)
    else s
  }

  /** Main result: who has a live record asks the database nothing; who has none waits for it, from now. */
  lemma AskingEffect(s: System, task: nat, who: User)
    requires task !in s.tasks
    ensures var key := AuthKey(who);
            Asking(s, task, who) ==
              if who.id == "" || (key in s.cache && s.now < s.cache[key].expiresAt) then s
              else s.(cache := s.cache - {key}, tasks := s.tasks[task := Asked(who, s.now)])
  {
    LookUpIff(s.cache, AuthKey(who), s.now);
    hide AuthKey;
  }

  ghost predicate Storing(s: System, task: nat, s': System) {
    if task in s.tasks && s.tasks[task].Answered? then
      var t := s.tasks[task];
      && s' == s.(cache := s'.cache, tasks := s.tasks - {task})
      && if t.result.Some? then Remembered(s.cache, AuthKey(t.asks), t.result.value, t.since, s'.cache)
         else s'.cache == s.cache
    else s' == s
  }

  ghost predicate Next(s: System, e: Event, s': System) {
    match e
    case Ask(task, who) => s' == Asking(s, task, who)
    case DatabaseAnswers(task, details) => s' == Answering(s, task, details)
    case DatabaseFails(task) => s' == s.(tasks := s.tasks - {task})
    case Store(task) => Storing(s, task, s')
    case Wait(ms) => s' == s.(now := s.now + ms)
  }

  ghost predicate IsRun(states: seq<System>, events: seq<Event>) {
    && |states| == |events| + 1 && states[0] == Start
    && forall i | 0 <= i < |events| :: Next(states[i], events[i], states[i + 1])
  }

  ghost predicate ReadSince(seen: set<Read>, found: Record, since: int, now: int) {
    exists r :: r in seen && r.found == found && since <= r.at <= now
  }

  ghost predicate EntryIsSound(s: System, key: string, e: Entry) {
    AuthKey(e.found.user) == key && ReadSince(s.seen, e.found, e.expiresAt - TTL, s.now)
  }

  ghost predicate TaskIsSound(s: System, t: Task) {
    t.since <= s.now
    && (t.Answered? && t.result.Some? ==>
          t.result.value.user == t.asks && ReadSince(s.seen, t.result.value, t.since, s.now))
  }

  ghost predicate EntriesAreSound(s: System) {
    forall k | k in s.cache :: EntryIsSound(s, k, s.cache[k])
  }

  ghost predicate TasksAreSound(s: System) {
    forall t | t in s.tasks :: TaskIsSound(s, s.tasks[t])
  }

  lemma SmallerCache(c: Cache, whole: Cache)
    requires Within(c, whole)
    ensures |c| <= |whole|
  {
    assert c.Keys <= whole.Keys;
    SubsetIsSmaller(c.Keys, whole.Keys);
  }

  lemma SubsetIsSmaller<T>(a: set<T>, b: set<T>)
    requires a <= b
    ensures |a| <= |b|
  {
    assert b == a + (b - a);
  }

  lemma TimeAndReadsOnlyGrow(s: System, e: Event, s': System)
    requires Next(s, e, s')
    ensures s.now <= s'.now && s.seen <= s'.seen
  {
    hide Remembered, AuthKey, LookUp;
  }

  lemma NextKeepsTasksSound(s: System, e: Event, s': System)
    requires Next(s, e, s') && TasksAreSound(s)
    ensures TasksAreSound(s')
  {
    TimeAndReadsOnlyGrow(s, e, s');
    forall t | t in s'.tasks ensures TaskIsSound(s', s'.tasks[t]) {
      if t in s.tasks {
        assert TaskIsSound(s, s.tasks[t]);
      }
      hide Remembered, AuthKey, LookUp;
      if e.DatabaseAnswers? && e.task == t && t in s.tasks && s.tasks[t].Asked? && e.details.Some? {
        assert Read(Record(s.tasks[t].asks, e.details.value), s.now) in s'.seen;
      }
    }
  }

  lemma RememberedIsOldOrNew(c: Cache, key: string, found: Record, now: int, c': Cache)
    requires Remembered(c, key, found, now, c')
    ensures forall k | k in c' :: (k in c && c'[k] == c[k]) || (k == key && c'[k] == Entry(found, now + TTL))
  {
    hide KeepsLatest;
  }

  lemma NextKeepsEntriesSound(s: System, e: Event, s': System)
    requires Next(s, e, s') && TasksAreSound(s) && EntriesAreSound(s)
    ensures EntriesAreSound(s')
  {
    TimeAndReadsOnlyGrow(s, e, s');
    if e.Store? && e.task in s.tasks && s.tasks[e.task].Answered? && s.tasks[e.task].result.Some? {
      var t := s.tasks[e.task];
      RememberedIsOldOrNew(s.cache, AuthKey(t.asks), t.result.value, t.since, s'.cache);
    }
    hide Remembered;
    forall k | k in s'.cache ensures EntryIsSound(s', k, s'.cache[k]) {
      hide AuthKey;
      if k in s.cache && s'.cache[k] == s.cache[k] {
        assert EntryIsSound(s, k, s.cache[k]);
      } else {
        assert e.Store? && e.task in s.tasks;
        assert TaskIsSound(s, s.tasks[e.task]);
      }
    }
  }

  lemma NextKeepsBound(s: System, e: Event, s': System)
    requires Next(s, e, s') && |s.cache| <= MAX
    ensures |s'.cache| <= MAX
  {
    hide AuthKey, Alive;
    if e.Ask? {
      SmallerCache(s'.cache, s.cache);
    }
  }

  /** Main result: at every await point of every interleaving the cache holds at most 2000 entries. */
  lemma {:induction false} CacheIsBounded(states: seq<System>, events: seq<Event>, i: nat)
    requires IsRun(states, events) && i < |states|
    ensures |states[i].cache| <= 2000
  {
    if i > 0 {
      CacheIsBounded(states, events, i - 1);
      assert Next(states[i - 1], events[i - 1], states[i]);
      NextKeepsBound(states[i - 1], events[i - 1], states[i]);
    }
  }

  lemma {:induction false} CacheIsSound(states: seq<System>, events: seq<Event>, i: nat)
    requires IsRun(states, events) && i < |states|
    ensures EntriesAreSound(states[i]) && TasksAreSound(states[i])
  {
    hide Next;
    if i > 0 {
      CacheIsSound(states, events, i - 1);
      assert Next(states[i - 1], events[i - 1], states[i]);
      NextKeepsTasksSound(states[i - 1], events[i - 1], states[i]);
      NextKeepsEntriesSound(states[i - 1], events[i - 1], states[i]);
    }
  }

  /** Main result: a hit serves the asker's own record, as read from the database less than ten seconds before. */
  lemma HitIsRecentAndOwn(states: seq<System>, events: seq<Event>, i: nat, who: User, served: Record)
    requires IsRun(states, events) && i < |states|
    requires LookUp(states[i].cache, AuthKey(who), states[i].now).1 == Some(served)
    ensures served.user == who
    ensures exists r :: r in states[i].seen && r.found == served && states[i].now - 10_000 < r.at <= states[i].now
  {
    CacheIsSound(states, events, i);
    hide IsRun;
    assert EntryIsSound(states[i], AuthKey(who), states[i].cache[AuthKey(who)]);
    KeyTellsUser(served.user, who);
  }

  // ---- Nothing is forgotten early ---------------------------------------------------------------------

  /** The step stores no newer record of this user. */
  ghost predicate StoresAnother(s: System, e: Event, who: User) {
    e.Store? && e.task in s.tasks ==> s.tasks[e.task].asks != who
  }

  lemma NextKeepsEntry(s: System, e: Event, s': System, who: User)
    requires Next(s, e, s') && |s.cache| < MAX && StoresAnother(s, e, who)
    requires AuthKey(who) in s.cache && s.now < s.cache[AuthKey(who)].expiresAt
    ensures AuthKey(who) in s'.cache && s'.cache[AuthKey(who)] == s.cache[AuthKey(who)]
  {
    if e.Store? && e.task in s.tasks && s.tasks[e.task].Answered? && s.tasks[e.task].result.Some? {
      var t := s.tasks[e.task];
      RoomForOneMore(s.cache, AuthKey(t.asks), Entry(t.result.value, t.since + TTL));
      if AuthKey(t.asks) == AuthKey(who) {
        KeyTellsUser(t.asks, who);
      }
    }
    hide AuthKey, Evicted;
  }

  lemma {:induction false} EntryLasts(states: seq<System>, events: seq<Event>, i: nat, j: nat, who: User)
    requires IsRun(states, events) && i <= j < |states|
    requires AuthKey(who) in states[i].cache && states[j].now < states[i].cache[AuthKey(who)].expiresAt
    requires forall k | i <= k < j :: |states[k].cache| < 2000 && StoresAnother(states[k], events[k], who)
    ensures AuthKey(who) in states[j].cache && states[j].cache[AuthKey(who)] == states[i].cache[AuthKey(who)]
    decreases j
  {
    hide AuthKey, Next, StoresAnother;
    if i < j {
      assert Next(states[j - 1], events[j - 1], states[j]);
      TimeAndReadsOnlyGrow(states[j - 1], events[j - 1], states[j]);
      EntryLasts(states, events, i, j - 1, who);
      NextKeepsEntry(states[j - 1], events[j - 1], states[j], who);
    }
  }

  /**
   Main result: with room in the cache, a stored record is served until its ten seconds are up or a newer one is
   stored.
   */
  lemma StoredIsServed(states: seq<System>, events: seq<Event>, i: nat, j: nat, who: User)
    requires IsRun(states, events) && i <= j < |states|
    requires AuthKey(who) in states[i].cache && states[j].now < states[i].cache[AuthKey(who)].expiresAt
    requires forall k | i <= k < j :: |states[k].cache| < 2000 && StoresAnother(states[k], events[k], who)
    ensures LookUp(states[j].cache, AuthKey(who), states[j].now)
         == (states[j].cache, Some(states[i].cache[AuthKey(who)].found))
  {
    EntryLasts(states, events, i, j, who);
    hide IsRun, StoresAnother, AuthKey;
  }
}
