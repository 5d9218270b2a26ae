/** The typing maps as the gateway changes them, and what they satisfy over every run. */
module TypingGateway {
  import opened TypingRows

  // ---- Keys ------------------------------------------------------------------------------------------

  /** The user is the part of a key before its first `_`, whatever the conversation. */
  lemma KeysDiffer(u: UserId, c: string, u': UserId, c': string)
    requires Key(u, c) == Key(u', c')
    ensures u == u' && c == c'
  {
    var k := Key(u, c);
    assert forall i | 0 <= i < |u| :: k[i] == u[i] && u[i] in u;
    assert forall i | 0 <= i < |u'| :: k[i] == u'[i] && u'[i] in u';
    assert k[|u|] == '_' && k[|u'|] == '_';
    assert k[..|u|] == u && k[..|u'|] == u';
    assert k[|u| + 1..] == c && k[|u'| + 1..] == c';
  }

  lemma PrefixTellsUser(u: UserId, c: string, u': UserId)
    ensures StartsWith(Key(u, c), Key(u', "")) <==> u == u'
  {
    assert Key(u, c)[..|u| + 1] == Key(u, "");
    if StartsWith(Key(u, c), Key(u', "")) {
      var rest := Key(u, c)[|u'| + 1..];
      assert Key(u, c) == Key(u', "") + rest == Key(u', rest);
      KeysDiffer(u, c, u', rest);
    }
  }

  // ---- Steps -----------------------------------------------------------------------------------------

  lemma StartShows(t: Typing, u: UserId, c: string)
    requires NoEmptyConversation(t) && TimerPerTypist(t)
    ensures NoEmptyConversation(Start(t, u, c)) && TimerPerTypist(Start(t, u, c))
    ensures forall u': UserId, c': string :: Types(Start(t, u, c), u', c') <==> Types(t, u', c') || (u', c') == (u, c)
  {
    forall u': UserId, c': string | Key(u', c') == Key(u, c) ensures (u', c') == (u, c) {
      KeysDiffer(u', c', u, c);
    }
    hide Key, Cleared;
  }

  lemma StartRenewsTimer(t: Typing, u: UserId, c: string)
    requires RecordedTimersRun(t) && NoLeakedTimer(t)
    ensures RecordedTimersRun(Start(t, u, c)) && NoLeakedTimer(Start(t, u, c))
  {
    hide Key;
  }

  lemma StartIsConsistent(t: Typing, u: UserId, c: string)
    requires Consistent(t)
    ensures Consistent(Start(t, u, c))
    ensures forall u': UserId, c': string :: Types(Start(t, u, c), u', c') <==> Types(t, u', c') || (u', c') == (u, c)
  {
    hide NoEmptyConversation, TimerPerTypist, RecordedTimersRun, NoLeakedTimer, Start;
    StartShows(t, u, c);
    StartRenewsTimer(t, u, c);
  }

  /** Main result: typing again gives the pair a new timer in place of its old one, and touches no other pair's. */
  lemma TypingRenewsTimer(t: Typing, u: UserId, c: string)
    requires Consistent(t)
    ensures var t' := Start(t, u, c);
            && Key(u, c) in t'.timeouts && t'.timeouts[Key(u, c)] !in t.live && t'.timeouts[Key(u, c)] in t'.live
            && (Key(u, c) in t.timeouts ==> t.timeouts[Key(u, c)] !in t'.live)
            && forall u': UserId, c': string | (u', c') != (u, c) && Key(u', c') in t.timeouts ::
                 && Key(u', c') in t'.timeouts && t'.timeouts[Key(u', c')] == t.timeouts[Key(u', c')]
                 && t.timeouts[Key(u', c')] in t'.live
  {
    forall u': UserId, c': string | Key(u', c') == Key(u, c) ensures (u', c') == (u, c) {
      KeysDiffer(u', c', u, c);
    }
    hide Key;
  }

  lemma StopHides(t: Typing, u: UserId, c: string)
    requires NoEmptyConversation(t) && TimerPerTypist(t)
    ensures NoEmptyConversation(Stop(t, u, c)) && TimerPerTypist(Stop(t, u, c))
    ensures forall u': UserId, c': string :: Types(Stop(t, u, c), u', c') <==> Types(t, u', c') && (u', c') != (u, c)
  {
    forall u': UserId, c': string | Key(u', c') == Key(u, c) ensures (u', c') == (u, c) {
      KeysDiffer(u', c', u, c);
    }
    hide Key, Cleared;
  }

  lemma StopClearsTimer(t: Typing, u: UserId, c: string)
    requires NoLeakedTimer(t)
    requires forall k | k in t.timeouts ::
               && (k != Key(u, c) ==> t.timeouts[k] in t.live)
               && (t.timeouts[k] in t.live ==> k == Key(t.live[t.timeouts[k]].0, t.live[t.timeouts[k]].1))
    ensures RecordedTimersRun(Stop(t, u, c)) && NoLeakedTimer(Stop(t, u, c))
  {
    hide Key, Without;
  }

  /** Stopping is sound even when the pair's own timer has just fired. */
  lemma StopIsConsistent(t: Typing, u: UserId, c: string)
    requires NoEmptyConversation(t) && TimerPerTypist(t) && NoLeakedTimer(t)
    requires forall k | k in t.timeouts ::
               && (k != Key(u, c) ==> t.timeouts[k] in t.live)
               && (t.timeouts[k] in t.live ==> k == Key(t.live[t.timeouts[k]].0, t.live[t.timeouts[k]].1))
    ensures Consistent(Stop(t, u, c))
    ensures forall u': UserId, c': string :: Types(Stop(t, u, c), u', c') <==> Types(t, u', c') && (u', c') != (u, c)
  {
    hide NoEmptyConversation, TimerPerTypist, RecordedTimersRun, NoLeakedTimer, Stop, Key;
    StopHides(t, u, c);
    StopClearsTimer(t, u, c);
  }

  lemma FireIsConsistent(t: Typing, id: nat)
    requires Consistent(t)
    ensures Consistent(Fire(t, id))
    ensures forall u: UserId, c: string :: Types(Fire(t, id), u, c) <==>
             Types(t, u, c) && !(id in t.live && t.live[id] == (u, c))
  {
    if id in t.live {
      hide Stop;
      StopIsConsistent(t.(live := t.live - {id}), t.live[id].0, t.live[id].1);
    }
  }

  lemma CleanupIsConsistent(t: Typing, u: UserId)
    requires Consistent(t)
    ensures Consistent(Cleanup(t, u))
    ensures forall u': UserId, c: string :: Types(Cleanup(t, u), u', c) <==> Types(t, u', c) && u' != u
  {
    forall u': UserId, c: string ensures StartsWith(Key(u', c), Key(u, "")) <==> u' == u {
      PrefixTellsUser(u', c, u);
    }
    hide Key, StartsWith;
    assert forall id | id in t.live :: Key(t.live[id].0, t.live[id].1) in t.timeouts;
  }

  /** What each event does to the indicators: nothing but what it is for. */
  ghost predicate Shown(t: Typing, e: Event, u: UserId, c: string) {
    match e
    case Connects(_, _) => Types(t, u, c)
    case StartsTyping(s, c') => Types(t, u, c) || (s in t.online && t.online[s] == u && c == c')
    case StopsTyping(s, c') => Types(t, u, c) && !(s in t.online && t.online[s] == u && c == c')
    case TimerFires(id) => Types(t, u, c) && !(id in t.live && t.live[id] == (u, c))
    case Disconnects(s) => Types(t, u, c) && !(s in t.online && t.online[s] == u)
  }

  lemma StepIsConsistent(t: Typing, e: Event)
    requires Consistent(t)
    ensures Consistent(Step(t, e))
    ensures forall u: UserId, c: string :: Types(Step(t, e), u, c) <==> Shown(t, e, u, c)
  {
    match e {
      case Connects(_, _) =>
      case StartsTyping(s, c) => if s in t.online { StartIsConsistent(t, t.online[s], c); } hide Start, Consistent;
      case StopsTyping(s, c) => if s in t.online { StopIsConsistent(t, t.online[s], c); } hide Stop, Consistent;
      case TimerFires(id) => FireIsConsistent(t, id); hide Fire, Consistent;
      case Disconnects(s) =>
        if s in t.online {
          CleanupIsConsistent(t.(online := t.online - {s}), t.online[s]);
        }
        hide Cleanup, Consistent;
    }
  }

  lemma StepKeepsTypistsOnline(t: Typing, e: Event)
    requires Consistent(t) && TypistsAreOnline(t)
    ensures TypistsAreOnline(Step(t, e))
  {
    StepIsConsistent(t, e);
    var t' := Step(t, e);
    assert e.Connects? || e.Disconnects? || t'.online == t.online by { hide Consistent; }
    forall u: UserId, c: string | Types(t', u, c) ensures u in t'.online.Values {
      if e.Connects? {
        var s :| s in t.online && t.online[s] == u;
        assert t'.online[s] == u;
      } else if e.Disconnects? {
        var s :| s in t.online && t.online[s] == u;
        assert t'.online == t.online - {e.socket} by { hide Consistent; }
        assert t'.online[s] == u;
      } else if e.StartsTyping? && e.socket in t.online {
        assert t.online[e.socket] in t.online.Values;
      }
    }
  }

  /**
   Main result: over every run, a timer exists exactly for each user typing in each conversation, no timer runs
   unrecorded, no conversation set is empty, and whoever is shown typing is connected.
   */
  lemma {:induction false} RunIsConsistent(events: seq<Event>)
    ensures Consistent(Run(events)) && TypistsAreOnline(Run(events))
  {
    if events != [] {
      var before := events[..|events| - 1];
      RunIsConsistent(before);
      StepIsConsistent(Run(before), events[|events| - 1]);
      StepKeepsTypistsOnline(Run(before), events[|events| - 1]);
      hide Step, Consistent, TypistsAreOnline;
    }
  }

  /** Main result: a disconnect leaves nothing of that user, neither indicator nor timer, and touches nobody else. */
  lemma DisconnectForgets(events: seq<Event>, socket: string)
    requires socket in Run(events).online
    ensures var t, t' := Run(events), Run(events + [Disconnects(socket)]);
            var u := t.online[socket];
            && (forall c :: !Types(t', u, c) && Key(u, c) !in t'.timeouts)
            && (forall id | id in t'.live :: t'.live[id].0 != u)
            && (forall u': UserId, c: string | u' != u ::
                  && (Types(t', u', c) <==> Types(t, u', c))
                  && (Key(u', c) in t'.timeouts <==> Key(u', c) in t.timeouts)
                  && (Key(u', c) in t'.timeouts ==> t'.timeouts[Key(u', c)] == t.timeouts[Key(u', c)]))
  {
    var t, e := Run(events), Disconnects(socket);
    assert (events + [e])[..|events|] == events;
    var t' := Step(t, e);
    assert Run(events + [e]) == t';
    RunIsConsistent(events);
    StepIsConsistent(t, e);
    var u := t.online[socket];
    forall id | id in t'.live ensures t'.live[id].0 != u {
      assert Key(t'.live[id].0, t'.live[id].1) in t'.timeouts;
    }
    forall u': UserId, c: string | Key(u', c) in t'.timeouts ensures Key(u', c) in t.timeouts
        && t'.timeouts[Key(u', c)] == t.timeouts[Key(u', c)] {
      hide Run, Consistent, Key, Types;
    }
    hide Run, Step, Key, Types;
  }

  // ---- The gateway -----------------------------------------------------------------------------------

  class Gateway {
    var connectedUsers: map<string, UserId>
    var typingUsers: map<string, set<UserId>>
    var typingTimeouts: map<string, nat>
    var timers: map<nat, (UserId, string)>
    var nextTimer: nat

    function State(): Typing
      reads this
    {
      Typing(connectedUsers, typingUsers, typingTimeouts, timers, nextTimer)
    }

    constructor ()
      ensures State() == Run([])
    {
      connectedUsers, typingUsers, typingTimeouts, timers, nextTimer := map[], map[], map[], map[], 0;
    }

    method ClearTimer(key: string)
      requires key in typingTimeouts
      modifies this`timers
      ensures timers == Cleared(old(State()), key)
    {
      timers := timers - {typingTimeouts[key]};
    }

    /** Returns what is sent to the conversation: the others typing in it, and whether anyone is. */
    method NotifyUserTyping(c: string, u: UserId, isTyping: bool) returns (others: set<UserId>, someone: bool)
      modifies this
      ensures State() == if isTyping then Start(old(State()), u, c) else Stop(old(State()), u, c)
      ensures forall u' :: u' in others <==> Types(State(), u', c) && u' != u
      ensures someone <==> c in State().users && State().users[c] != {}
    {
      hide Key;
      var key := Key(u, c);
      if isTyping {
        if c !in typingUsers {
          typingUsers := typingUsers[c := {}];
        }
        typingUsers := typingUsers[c := typingUsers[c] + {u}];
        assert typingUsers == Start(old(State()), u, c).users;
        if key in typingTimeouts {
          ClearTimer(key);
        }
        timers := timers[nextTimer := (u, c)];
        typingTimeouts := typingTimeouts[key := nextTimer];
        nextTimer := nextTimer + 1;
        assert State() == Start(old(State()), u, c);
      } else {
        if c in typingUsers {
          typingUsers := typingUsers[c := typingUsers[c] - {u}];
          if typingUsers[c] == {} {
            typingUsers := typingUsers - {c};
          }
        }
        assert typingUsers == Without(old(typingUsers), u, c);
        if key in typingTimeouts {
          ClearTimer(key);
          typingTimeouts := typingTimeouts - {key};
        }
        assert typingTimeouts == old(typingTimeouts) - {key};
        assert State() == Stop(old(State()), u, c);
      }
      hide Start, Stop;
      var list := if c in typingUsers then typingUsers[c] else {};
      others, someone := list - {u}, list != {};
    }

    method TimerFires(id: nat)
      requires id in timers
      modifies this
      ensures State() == Fire(old(State()), id)
    {
      var (u, c) := timers[id];
      timers := timers - {id};
      var _, _ := NotifyUserTyping(c, u, false);
    }

    /** Leaves every conversation, one at a time, each with its timer. */
    method LeaveConversations(u: UserId) returns (ghost gone: set<string>)
      modifies this
      ensures gone <= KeysOf(old(State()), u)
      ensures State() == Dropped(old(State()), gone).(users := Left(old(typingUsers), u, old(typingUsers).Keys))
    {
      ghost var was := State();
      gone := {};
      var todo := typingUsers.Keys;
      NothingDone(was, u);
      ghost var done := {};
      while todo != {}
        invariant done !! todo && done + todo == was.users.Keys
        invariant gone <= KeysOf(was, u)
        invariant State() == Dropped(was, gone).(users := Left(was.users, u, done))
        decreases todo
      {
        var c :| c in todo;
        StillThere(was.users, u, done, c);
        hide *;
        if u in typingUsers[c] {
          StopDrops(was, gone, u, done, c);
          var _, _ := NotifyUserTyping(c, u, false);
          gone := gone + if Key(u, c) in was.timeouts then {Key(u, c)} else {};
        } else {
          SkipLeaves(was.users, u, done, c);
        }
        todo, done := todo - {c}, done + {c};
      }
    }

    /** First the indicators, conversation by conversation, then whatever timers are left. */
    method CleanupUserTypingOnDisconnect(u: UserId)
      modifies this
      ensures State() == Cleanup(old(State()), u)
    {
      ghost var was := State();
      ghost var gone := LeaveConversations(u);
      ghost var left := State();
      ghost var swept := {};
      var keys := set k | k in typingTimeouts && StartsWith(k, Key(u, ""));
      assert State() == Dropped(left, swept);
      assert keys == KeysOf(left, u);
      while keys != {}
        invariant swept !! keys && swept + keys == KeysOf(left, u)
        invariant State() == Dropped(left, swept)
        decreases keys
      {
        var k :| k in keys;
        SweepOne(left, u, swept, k);
        hide Dropped, KeysOf;
        ClearTimer(k);
        typingTimeouts := typingTimeouts - {k};
        swept, keys := swept + {k}, keys - {k};
      }
      SweepCompletes(was, u, gone);
    }

    method HandleDisconnect(socket: string)
      modifies this
      ensures State() == Disconnect(old(State()), socket)
    {
      if socket in connectedUsers {
        var u := connectedUsers[socket];
        connectedUsers := connectedUsers - {socket};
        CleanupUserTypingOnDisconnect(u);
      }
    }

    method HandleUserTyping(socket: string, c: string, isTyping: bool)
      modifies this
      ensures State() == Step(old(State()), if isTyping then StartsTyping(socket, c) else StopsTyping(socket, c))
    {
      if socket in connectedUsers {
        var _, _ := NotifyUserTyping(c, connectedUsers[socket], isTyping);
      }
    }
  }

  lemma NothingDone(was: Typing, u: UserId)
    ensures was == Dropped(was, {}).(users := Left(was.users, u, {}))
  {
  }

  lemma StillThere(users: map<string, set<UserId>>, u: UserId, left: set<string>, c: string)
    requires c in users && c !in left
    ensures c in Left(users, u, left) && Left(users, u, left)[c] == users[c]
  {
  }

  lemma SweepOne(t: Typing, u: UserId, swept: set<string>, k: string)
    requires k in KeysOf(t, u) && k !in swept
    ensures k in Dropped(t, swept).timeouts
    ensures var d := Dropped(t, swept);
            Dropped(t, swept + {k}) == d.(timeouts := d.timeouts - {k}, live := Cleared(d, k))
  {
    DropOne(t, swept, k);
  }

  lemma SweepCompletes(was: Typing, u: UserId, gone: set<string>)
    requires gone <= KeysOf(was, u)
    ensures var t := Dropped(was, gone).(users := Left(was.users, u, was.users.Keys));
            Dropped(t, KeysOf(t, u)) == Cleanup(was, u)
  {
    hide StartsWith, Key, Left;
    var t := Dropped(was, gone).(users := Left(was.users, u, was.users.Keys));
    assert gone + KeysOf(t, u) == KeysOf(was, u);
  }

  lemma StopDrops(was: Typing, gone: set<string>, u: UserId, left: set<string>, c: string)
    requires c in was.users && c !in left && u in was.users[c] && gone <= KeysOf(was, u)
    ensures var t := Dropped(was, gone).(users := Left(was.users, u, left));
            Stop(t, u, c) == Dropped(was, gone + if Key(u, c) in was.timeouts then {Key(u, c)} else {})
                             .(users := Left(was.users, u, left + {c}))
    ensures gone + (if Key(u, c) in was.timeouts then {Key(u, c)} else {}) <= KeysOf(was, u)
  {
    PrefixTellsUser(u, c, u);
    DropOne(was, gone, Key(u, c));
    LeaveOne(was.users, u, left, c);
    var more := gone + if Key(u, c) in was.timeouts then {Key(u, c)} else {};
    assert more <= KeysOf(was, u);
    hide Dropped, Left, Without, Key, KeysOf;
    var t, d := Dropped(was, gone).(users := Left(was.users, u, left)), Dropped(was, more);
    assert Stop(t, u, c).timeouts == d.timeouts;
    assert Stop(t, u, c).live == d.live;
    assert Stop(t, u, c).users == Left(was.users, u, left + {c});
    assert Stop(t, u, c) == d.(users := Left(was.users, u, left + {c}));
  }

  lemma DropOne(was: Typing, gone: set<string>, k: string)
    ensures var t, t' := Dropped(was, gone), Dropped(was, gone + if k in was.timeouts then {k} else {});
            t' == t.(timeouts := t.timeouts - {k}, live := Cleared(t, k))
  {
    var t, t' := Dropped(was, gone), Dropped(was, gone + if k in was.timeouts then {k} else {});
    assert t'.timeouts == t.timeouts - {k};
    assert t'.live.Keys == Cleared(t, k).Keys;
    assert t'.live == Cleared(t, k);
  }

  lemma LeaveOne(users: map<string, set<UserId>>, u: UserId, left: set<string>, c: string)
    requires c in users && c !in left && u in users[c]
    ensures Without(Left(users, u, left), u, c) == Left(users, u, left + {c})
  {
    if users[c] != {u} {
      var v :| v in users[c] && v != u;
      assert v in users[c] - {u};
    }
    assert Without(Left(users, u, left), u, c) == Left(users, u, left + {c});
  }

  lemma SkipLeaves(users: map<string, set<UserId>>, u: UserId, left: set<string>, c: string)
    requires c in users && u !in users[c]
    ensures Left(users, u, left + {c}) == Left(users, u, left)
  {
    assert users[c] - {u} == users[c] != {u};
    assert Left(users, u, left + {c}) == Left(users, u, left);
  }
}
