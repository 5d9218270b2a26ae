/**
 Typing indicators of the socket gateway (src/socket-io/gateways/app.gateway.ts): who is connected, who is
 typing where, and the timers that end it. User ids come from the database and hold no `_`;
 conversation ids come from the client and may hold anything.
 */
module TypingRows {
  type UserId = s: string | '_' !in s witness ""

  /** `live` is the runtime's table of timers that have neither fired nor been cleared. */
  datatype Typing = Typing(
    online: map<string, UserId>,
    users: map<string, set<UserId>>,
    timeouts: map<string, nat>,
    live: map<nat, (UserId, string)>,
    next: nat)

  function Key(u: UserId, c: string): string {
    u + "_" + c
  }

  predicate Types(t: Typing, u: UserId, c: string) {
    c in t.users && u in t.users[c]
  }

  /** Clearing a timer that already fired does nothing. */
  function Cleared(t: Typing, key: string): map<nat, (UserId, string)> {
    if key in t.timeouts then t.live - {t.timeouts[key]} else t.live
  }

  function Start(t: Typing, u: UserId, c: string): Typing {
    t.(users := t.users[c := (if c in t.users then t.users[c] else {}) + {u}],
       live := Cleared(t, Key(u, c))[t.next := (u, c)],
       timeouts := t.timeouts[Key(u, c) := t.next],
       next := t.next + 1)
  }

  function Without(users: map<string, set<UserId>>, u: UserId, c: string): map<string, set<UserId>> {
    if c !in users then users
    else if users[c] - {u} == {} then users - {c}
    else users[c := users[c] - {u}]
  }

  function Stop(t: Typing, u: UserId, c: string): Typing {
    t.(users := Without(t.users, u, c), live := Cleared(t, Key(u, c)), timeouts := t.timeouts - {Key(u, c)})
  }

  function Fire(t: Typing, id: nat): Typing {
    if id in t.live then Stop(t.(live := t.live - {id}), t.live[id].0, t.live[id].1) else t
  }

  predicate StartsWith(s: string, prefix: string) {
    |prefix| <= |s| && s[..|prefix|] == prefix
  }

  /** The timers recorded under these keys are cleared and forgotten. */
  function Dropped(t: Typing, keys: set<string>): Typing {
    t.(timeouts := t.timeouts - keys, live := t.live - set k | k in t.timeouts && k in keys :: t.timeouts[k])
  }

  function KeysOf(t: Typing, u: UserId): set<string> {
    set k | k in t.timeouts && StartsWith(k, Key(u, ""))
  }

  /** `u` leaves these conversations. */
  function Left(users: map<string, set<UserId>>, u: UserId, conversations: set<string>): map<string, set<UserId>> {
    map c | c in users && !(c in conversations && users[c] == {u}) :: if c in conversations then users[c] - {u}
        else users[c]
  }

  function Cleanup(t: Typing, u: UserId): Typing {
    Dropped(t, KeysOf(t, u)).(users := Left(t.users, u, t.users.Keys))
  }

  function Disconnect(t: Typing, socket: string): Typing {
    if socket in t.online then Cleanup(t.(online := t.online - {socket}), t.online[socket]) else t
  }

  datatype Event =
    | Connects(socket: string, user: UserId)
    | StartsTyping(socket: string, conversation: string)
    | StopsTyping(socket: string, conversation: string)
    | TimerFires(id: nat)
    | Disconnects(socket: string)

  function Step(t: Typing, e: Event): Typing {
    match e
    case Connects(s, u) => if s in t.online then t else t.(online := t.online[s := u])
    case StartsTyping(s, c) => if s in t.online then Start(t, t.online[s], c) else t
    case StopsTyping(s, c) => if s in t.online then Stop(t, t.online[s], c) else t
    case TimerFires(id) => Fire(t, id)
    case Disconnects(s) => Disconnect(t, s)
  }

  function Run(events: seq<Event>): Typing {
    if events == [] then Typing(map[], map[], map[], map[], 0)
    else Step(Run(events[..|events| - 1]), events[|events| - 1])
  }

  // ---- What always holds -----------------------------------------------------------------------------

  ghost predicate NoEmptyConversation(t: Typing) {
    forall c | c in t.users :: t.users[c] != {}
  }

  /** A timer is recorded exactly for each user typing in each conversation. */
  ghost predicate TimerPerTypist(t: Typing) {
    forall u: UserId, c: string :: Types(t, u, c) <==> Key(u, c) in t.timeouts
  }

  /** A recorded timer runs, and is about the pair it is recorded for. */
  ghost predicate RecordedTimersRun(t: Typing) {
    forall k | k in t.timeouts :: t.timeouts[k] in t.live && k == Key(t.live[t.timeouts[k]].0, t.live[t.timeouts[k]].1)
  }

  /** No timer runs unrecorded. */
  ghost predicate NoLeakedTimer(t: Typing) {
    forall id | id in t.live ::
      id < t.next && Key(t.live[id].0, t.live[id].1) in t.timeouts && t.timeouts[Key(t.live[id].0, t.live[id].1)] == id
  }

  /** Whoever is shown typing is connected. */
  ghost predicate TypistsAreOnline(t: Typing) {
    forall u: UserId, c: string | Types(t, u, c) :: u in t.online.Values
  }

  ghost predicate Consistent(t: Typing) {
    NoEmptyConversation(t) && TimerPerTypist(t) && RecordedTimersRun(t) && NoLeakedTimer(t)
  }
}
