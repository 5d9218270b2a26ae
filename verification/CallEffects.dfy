/** What each call endpoint does, spelled out, and who may end a call when requests interleave. */
module CallEffects {
  import opened Wrappers
  import opened CallRows
  import opened CallRace

  // ---- Endpoints --------------------------------------------------------------------------------------

  /** A new call rings exactly its receivers, answered by nobody. */
  lemma OpenedEffect(caller: string, room: string, receivers: set<string>, now: int)
    ensures var c := Opened(caller, room, receivers, now);
            && c.status.Ringing? && c.caller == caller && c.room == room && c.answeredBy == None && c.startedAt == now
            && c.ringing == receivers == c.rung
  {
  }

  /** Main result: an answer is taken exactly from a user still rung while the call rings; the call is then theirs. */
  lemma AnswerEffect(c: Call, user: string)
    ensures var (c', reply, signals) := Answered(c, user);
            if user !in c.ringing then c' == c && reply == Forbidden && signals == []
            else if c.status.Ringing? then
              c' == c.(status := Ongoing, answeredBy := Some(user)) && reply == Taken(false) && signals == [Won(user)]
            else c' == c && reply == Taken(true) && signals == []
  {
  }

  /** Main result: a rejection is for users who were rung; the last one, and no other, misses the call. */
  lemma RejectEffect(c: Call, user: string)
    ensures var (c', reply, signals) := Rejected(c, user);
            if user !in c.rung then c' == c && reply == Forbidden && signals == []
            else if !c.status.Ringing? then c' == c && reply == Status(c.status) && signals == []
            else if exists v :: v in c.ringing && v != user then
              && c' == c.(ringing := c'.ringing) && (forall v :: v in c'.ringing <==> v in c.ringing && v != user)
              && reply == Status(Ringing) && signals == [Removed(user)]
            else
              && c' == c.(ringing := {}, status := Missed)
              && reply == Status(Missed) && signals == [Removed(user), NoAnswerAndRoomDeleted(Missed)]
  {
    if v :| v in c.ringing && v != user {
      assert v in c.ringing - {user};
    }
  }

  /** The caller, the answerer of record, a user who was rung, or an administrator. */
  predicate Belongs(c: Call, u: User) {
    u.id == c.caller || c.answeredBy == Some(u.id) || u.id in c.rung || u.isAdmin
  }

  /** Main result: nobody else can hang up. */
  lemma StrangerCannotHangUp(c: Call, u: User)
    requires !Belongs(c, u)
    ensures HungUp(c, u) == (c, Forbidden, [])
  {
  }

  /** Main result: what a hang-up does for those who belong to the call. */
  lemma HangupEffect(c: Call, u: User)
    requires Belongs(c, u)
    ensures match c.status
            case Ringing =>
              HungUp(c, u) == if u.id == c.caller then (c.(status := Cancelled), Status(Cancelled), [RoomDeleted])
                  else Rejected(c, u.id)
            case Ongoing => HungUp(c, u) == (c.(status := Ended), Status(Ended), [RoomDeleted])
            case _ => HungUp(c, u) == (c, Status(c.status), [])
  {
    hide Rejected;
  }

  /** Main result: the sweep ends exactly the ongoing calls that started more than four hours before. */
  lemma SweepEffect(c: Call, now: int)
    ensures Swept(c, now) == if c.status.Ongoing? && now - c.startedAt > 14_400_000 then c.(status := Ended) else c
  {
  }

  /** The end of a session ends the ringing or ongoing call of that room. */
  lemma SessionEffect(c: Call, room: string)
    ensures SessionEnded(c, room) ==
              match c.status
              case Ringing => if room == c.room then c.(status := Ended) else c
              case Ongoing => if room == c.room then c.(status := Ended) else c
              case _ => c
  {
  }

  // ---- Who ends a call, interleaved -------------------------------------------------------------------

  /** An access on the way to cancelling or ending a call. */
  predicate OnTheWayOut(a: Access) {
    a.Cancelling? || a.ReadAfterLostCancel? || a.Ending?
  }

  /**
   Before `k`, thread `t` read the call for the hang-up of someone who belonged to it then: of its caller, to
   cancel.
   */
  ghost predicate HangsUpBefore(s: System, moves: seq<Move>, t: nat, k: nat, cancels: bool)
    requires k <= |moves|
  {
    exists j, who ::
      && 0 <= j < k && moves[j] == Turn(t) && CanTurn(RunRace(s, moves[..j]), moves[j])
      && RunRace(s, moves[..j]).threads[t][0] == ReadForHangup(who)
      && Belongs(RunRace(s, moves[..j]).call, who)
      && (cancels ==> who.id == RunRace(s, moves[..j]).call.caller)
  }

  lemma ContinuesOut(c: Call, a: Access, next: Access)
    requires next in Continues(c, a) && OnTheWayOut(next)
    ensures (a.ReadForHangup? && Belongs(c, a.who) && (next.Cancelling? ==> a.who.id == c.caller))
         || (OnTheWayOut(a) && !next.Cancelling?)
  {
  }

  lemma {:induction false} OnlyParticipantsGetOut(s: System, moves: seq<Move>, k: nat, t: nat, a: Access)
    requires s.threads == [] && k <= |moves|
    requires t < |RunRace(s, moves[..k]).threads| && a in RunRace(s, moves[..k]).threads[t] && OnTheWayOut(a)
    ensures HangsUpBefore(s, moves, t, k, a.Cancelling?)
  {
    if k > 0 {
      assert moves[..k][..k - 1] == moves[..k - 1];
      var before, m := RunRace(s, moves[..k - 1]), moves[k - 1];
      assert RunRace(s, moves[..k]) == Next(before, m);
      hide RunRace, Belongs, Continues;
      if t < |before.threads| && a in before.threads[t] {
        OnlyParticipantsGetOut(s, moves, k - 1, t, a);
      } else {
        NewlyOut(before, m, t, a);
        var head := before.threads[t][0];
        ContinuesOut(before.call, head, a);
        if !head.ReadForHangup? {
          OnlyParticipantsGetOut(s, moves, k - 1, t, head);
        }
      }
    }
  }

  lemma NewlyOut(s: System, m: Move, t: nat, a: Access)
    requires t < |Next(s, m).threads| && a in Next(s, m).threads[t] && OnTheWayOut(a)
    requires !(t < |s.threads| && a in s.threads[t])
    ensures m == Turn(t) && CanTurn(s, m) && a in Continues(s.call, s.threads[t][0])
  {
    hide Continues, Writes, Signals;
    forall q: Request ensures !OnTheWayOut(First(q)) {
    }
  }

  /** Main result: in any interleaving, a call is cancelled or ended by a hang-up only of someone who belongs to it. */
  lemma OnlyParticipantsEnd(
    caller: string, room: string, receivers: set<string>, now: int, moves: seq<Move>, k: nat)
    requires var s := Start(caller, room, receivers, now);
             k < |moves| && CanTurn(RunRace(s, moves[..k]), moves[k])
             && var a := RunRace(s, moves[..k]).threads[moves[k].thread][0]; a.Cancelling? || a.Ending?
    ensures var s := Start(caller, room, receivers, now);
            HangsUpBefore(s, moves, moves[k].thread, k, RunRace(s, moves[..k]).threads[moves[k].thread][0].Cancelling?)
  {
    var s := Start(caller, room, receivers, now);
    OnlyParticipantsGetOut(s, moves, k, moves[k].thread, RunRace(s, moves[..k]).threads[moves[k].thread][0]);
  }

  // ---- A cancellation that lost to an answer ----------------------------------------------------------

  /**
   What a caller's hang-up still does when its claim comes too late: it ends the call taken meanwhile, and its
   room.
   */
  lemma LostCancelEnds(s: System, t: nat)
    requires t < |s.threads| && s.threads[t] == [Cancelling] && !s.call.status.Ringing?
    ensures var s1 := Next(s, Turn(t));
            var s2 := Next(s1, Turn(t));
            && s1 == s.(threads := s.threads[t := [ReadAfterLostCancel]])
            && if s.call.status.Ongoing? then
                 var s4 := Next(Next(s2, Turn(t)), Turn(t));
                 && s4.call == s.call.(status := Ended) && s4.log == s.log + [RoomDeleted]
                 && s4.threads == s.threads[t := []]
               else s2 == s.(threads := s.threads[t := []])
  {
    TurnOne(s, t, Cancelling);
    var s1 := Next(s, Turn(t));
    TurnOne(s1, t, ReadAfterLostCancel);
    var s2 := Next(s1, Turn(t));
    if s.call.status.Ongoing? {
      TurnOne(s2, t, Ending);
      var s3 := Next(s2, Turn(t));
      TurnOne(s3, t, DeletingRoom);
    }
    hide Next;
  }
}
