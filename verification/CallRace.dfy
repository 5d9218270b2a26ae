/**
 One call under any interleaving of answers, rejections, hang-ups, sweeps and webhooks.

 A request is a program of atomic accesses to the row; each access may push the next ones.
 Requests about other calls touch other rows, so one row is enough.
 */
module CallRace {
  import opened Wrappers
  import opened CallRows

  datatype Request =
    | AnswerCall(user: string)
    | RejectCall(user: string)
    | HangupCall(who: User)
    | AskActive(now: int)
    | WebhookEnded(room: string)

  datatype Access =
    | ReadForAnswer(user: string)
    | Answering(user: string)
    | ReadForReject(user: string)
    | Removing(user: string)
    | Missing
    | TellingNoAnswer
    | ReadForHangup(who: User)
    | Cancelling
    | ReadAfterLostCancel
    | Ending
    | DeletingRoom
    | Sweeping(now: int)
    | Closing(room: string)

  function First(q: Request): Access {
    match q
    case AnswerCall(u) => ReadForAnswer(u)
    case RejectCall(u) => ReadForReject(u)
    case HangupCall(who) => ReadForHangup(who)
    case AskActive(now) => Sweeping(now)
    case WebhookEnded(room) => Closing(room)
  }

  function Writes(c: Call, a: Access): Call {
    match a
    case Answering(u) => ClaimAnswer(c, u)
    case Removing(u) => ClaimRemoval(c, u)
    case Missing => ClaimMissed(c)
    case Cancelling => ClaimCancelled(c)
    case Ending => ClaimEnded(c)
    case Sweeping(now) => Swept(c, now)
    case Closing(room) => SessionEnded(c, room)
    case _ => c
  }

  function Continues(c: Call, a: Access): seq<Access> {
    match a
    case ReadForAnswer(u) => if u in c.ringing then [Answering(u)] else []
    case ReadForReject(u) => if u in c.rung && c.status.Ringing? then [Removing(u)] else []
    case Removing(u) => if c.status.Ringing? && c.ringing - {u} == {} then [Missing, TellingNoAnswer] else []
    case ReadForHangup(who) =>
      if !IsParticipant(c, who) || Terminal(c.status) then []
      else if c.status.Ringing? then if c.caller != who.id then [ReadForReject(who.id)] else [Cancelling]
      else [Ending]
    case Cancelling => if c.status.Ringing? then [DeletingRoom] else [ReadAfterLostCancel]
    case ReadAfterLostCancel => if c.status.Ongoing? then [Ending] else []
    case Ending => if c.status.Ongoing? then [DeletingRoom] else []
    case _ => []
  }

  function Signals(c: Call, a: Access): seq<Signal> {
    match a
    case Answering(u) => if c.status.Ringing? then [Won(u)] else []
    case Removing(u) => if c.status.Ringing? then [Removed(u)] else []
    case TellingNoAnswer => [NoAnswerAndRoomDeleted(c.status)]
    case DeletingRoom => [RoomDeleted]
    case _ => []
  }

  datatype System = System(call: Call, threads: seq<seq<Access>>, log: seq<Signal>)

  datatype Move = Ask(request: Request) | Turn(thread: nat)

  predicate CanTurn(s: System, m: Move) {
    m.Turn? && m.thread < |s.threads| && s.threads[m.thread] != []
  }

  function Next(s: System, m: Move): System {
    if m.Ask? then s.(threads := s.threads + [[First(m.request)]])
    else if CanTurn(s, m) then
      var p := s.threads[m.thread];
      System(Writes(s.call, p[0]), s.threads[m.thread := Continues(s.call, p[0]) + p[1..]], s.log
          + Signals(s.call, p[0]))
    else s
  }

  function RunRace(s: System, moves: seq<Move>): System {
    if moves == [] then s else Next(RunRace(s, moves[..|moves| - 1]), moves[|moves| - 1])
  }

  function Start(caller: string, room: string, receivers: set<string>, now: int): System {
    System(Opened(caller, room, receivers, now), [], [])
  }

  // ---- One winner, absorbing ends, honest misses -------------------------------------------------

  ghost predicate Pending(s: System, a: Access) {
    exists t, k :: 0 <= t < |s.threads| && 0 <= k < |s.threads[t]| && s.threads[t][k] == a
  }

  ghost predicate Fair(s: System) {
    var c := s.call;
    && c.ringing <= c.rung
    && (forall u | u in c.rung && u !in c.ringing :: Removed(u) in s.log)
    && (c.status.Ringing? || c.status.Missed? || c.status.Cancelled? ==> c.answeredBy.None?)
    && (c.status.Ongoing? ==> c.answeredBy.Some?)
    && (c.status.Missed? ==> c.ringing == {})
    && (c.answeredBy.Some? ==> c.answeredBy.value in c.rung)
    && (forall u :: Won(u) in s.log <==> c.answeredBy == Some(u))
    && (forall i, j | 0 <= i < j < |s.log| :: !(s.log[i].Won? && s.log[j].Won?))
    && (forall u | Pending(s, Answering(u)) :: u in c.rung)
    && (Pending(s, Missing) || Pending(s, TellingNoAnswer) ==> c.ringing == {})
  }

  /** What one step may do to the row, whoever takes it. */
  ghost predicate StepsFairly(c: Call, c': Call) {
    && c'.rung == c.rung && c'.caller == c.caller && c'.room == c.room
    && c'.ringing <= c.ringing
    && (c.answeredBy.Some? ==> c'.answeredBy == c.answeredBy)
    && (Terminal(c.status) ==> c' == c)
    && (c.status.Ongoing? ==> c'.status.Ongoing? || c'.status.Ended?)
  }

  lemma WritesStepFairly(c: Call, a: Access)
    requires c.status.Ringing? ==> c.answeredBy.None?
    ensures StepsFairly(c, Writes(c, a))
  {
  }

  /** What is pending after a step was pending before, or continues it. */
  lemma PendingAfter(s: System, m: Move, a: Access)
    requires CanTurn(s, m) && Pending(Next(s, m), a)
    ensures Pending(s, a) || a in Continues(s.call, s.threads[m.thread][0])
  {
    var p, s' := s.threads[m.thread], Next(s, m);
    var t, k :| 0 <= t < |s'.threads| && 0 <= k < |s'.threads[t]| && s'.threads[t][k] == a;
    if t != m.thread {
      assert s.threads[t][k] == a;
    } else if k >= |Continues(s.call, p[0])| {
      assert s.threads[t][k - |Continues(s.call, p[0])| + 1] == a;
    }
  }

  lemma PendingAfterAsk(s: System, q: Request, a: Access)
    requires Pending(Next(s, Ask(q)), a)
    ensures Pending(s, a) || a == First(q)
  {
    var s' := Next(s, Ask(q));
    var t, k :| 0 <= t < |s'.threads| && 0 <= k < |s'.threads[t]| && s'.threads[t][k] == a;
    if t < |s.threads| {
      assert s.threads[t][k] == a;
    }
  }

  /** Nothing is pending after a step but what was, what it continues, or the request just made. */
  lemma PendingAfterNext(s: System, m: Move)
    ensures forall a | Pending(Next(s, m), a) ::
              Pending(s, a) || (m.Ask? && a == First(m.request))
              || (CanTurn(s, m) && a in Continues(s.call, s.threads[m.thread][0]))
    ensures CanTurn(s, m) ==> Pending(s, s.threads[m.thread][0])
  {
    forall a | Pending(Next(s, m), a)
      ensures Pending(s, a) || (m.Ask? && a == First(m.request))
              || (CanTurn(s, m) && a in Continues(s.call, s.threads[m.thread][0]))
    {
      if m.Ask? { PendingAfterAsk(s, m.request, a); } else if CanTurn(s, m) { PendingAfter(s, m, a); }
    }
  }

  lemma NextIsFair(s: System, m: Move)
    requires Fair(s)
    ensures Fair(Next(s, m)) && StepsFairly(s.call, Next(s, m).call)
  {
    PendingAfterNext(s, m);
    hide Pending;
    if CanTurn(s, m) {
      var a := s.threads[m.thread][0];
      WritesStepFairly(s.call, a);
      StepLog(s, a);
      StepRow(s, a);
    }
  }

  lemma StepRow(s: System, a: Access)
    requires Fair(s) && Pending(s, a)
    ensures var c', log' := Writes(s.call, a), s.log + Signals(s.call, a);
            && (forall u | u in c'.rung && u !in c'.ringing :: Removed(u) in log')
            && (c'.status.Ringing? || c'.status.Missed? || c'.status.Cancelled? ==> c'.answeredBy.None?)
            && (c'.status.Ongoing? ==> c'.answeredBy.Some?)
            && (c'.status.Missed? ==> c'.ringing == {})
            && (c'.answeredBy.Some? ==> c'.answeredBy.value in c'.rung)
            && (forall u | Answering(u) in Continues(s.call, a) :: u in c'.rung)
            && (Missing in Continues(s.call, a) || TellingNoAnswer in Continues(s.call, a) ==> c'.ringing == {})
  {
    hide Pending;
  }

  lemma StepLog(s: System, a: Access)
    requires Fair(s)
    ensures var c', log' := Writes(s.call, a), s.log + Signals(s.call, a);
            && (forall u :: Won(u) in log' <==> c'.answeredBy == Some(u))
            && (forall i, j | 0 <= i < j < |log'| :: !(log'[i].Won? && log'[j].Won?))
  {
    hide Pending;
    if a.Answering? && s.call.status.Ringing? {
      assert forall i | 0 <= i < |s.log| :: s.log[i].Won? ==> Won(s.log[i].user) in s.log;
    }
  }

  lemma {:induction false} RunIsFair(s: System, moves: seq<Move>)
    requires Fair(s)
    ensures Fair(RunRace(s, moves)) && StepsFairly(s.call, RunRace(s, moves).call)
  {
    hide Next, Fair;
    if moves != [] {
      RunIsFair(s, moves[..|moves| - 1]);
      NextIsFair(RunRace(s, moves[..|moves| - 1]), moves[|moves| - 1]);
    }
  }

  lemma StartIsFair(caller: string, room: string, receivers: set<string>, now: int)
    ensures Fair(Start(caller, room, receivers, now)) && Disciplined(Start(caller, room, receivers, now))
  {
  }

  /**
   Main result: in every state reachable by interleaved requests, at most one answer has won; the
   winner is the answerer of record and was rung; a missed call was rejected by everyone it rang;
   from there on the answerer never changes and an ended call never moves again.
   */
  lemma SingleWinner(caller: string, room: string, receivers: set<string>, now: int, moves: seq<Move>, later: seq<Move>)
    ensures var s := RunRace(Start(caller, room, receivers, now), moves);
            var s' := RunRace(s, later);
            && s.call.rung == s'.call.rung == receivers
            && (forall i, j | 0 <= i < j < |s.log| :: !(s.log[i].Won? && s.log[j].Won?))
            && (forall u :: Won(u) in s.log <==> s.call.answeredBy == Some(u))
            && (s.call.answeredBy.Some? ==>
                  s.call.answeredBy.value in receivers && s'.call.answeredBy == s.call.answeredBy)
            && (s.call.status.Missed? ==> forall u | u in receivers :: Removed(u) in s.log)
            && (Terminal(s.call.status) ==> s'.call == s.call)
  {
    var s0 := Start(caller, room, receivers, now);
    var s := RunRace(s0, moves);
    StartIsFair(caller, room, receivers, now);
    RunIsFair(s0, moves);
    RunIsFair(s, later);
    hide RunRace, Pending;
  }

  // ---- No false "no-answer" ----------------------------------------------------------------------

  /** While it rings, the step removes a user who holds an answer past its membership check. */
  ghost predicate RemovesAnAnswerer(s: System, m: Move) {
    && s.call.status.Ringing? && CanTurn(s, m)
    && s.threads[m.thread][0].Removing? && Pending(s, Answering(s.threads[m.thread][0].user))
  }

  /** No user rejects while holding an answer. */
  ghost predicate NoSelfRace(s: System, moves: seq<Move>) {
    forall i | 0 <= i < |moves| :: !RemovesAnAnswerer(RunRace(s, moves[..i]), moves[i])
  }

  /** It rings, some answer is past its check, and every such answer is from a user already removed. */
  ghost predicate Exposed(s: System) {
    && s.call.status.Ringing?
    && (exists u :: Pending(s, Answering(u)))
    && (forall u | Pending(s, Answering(u)) :: u !in s.call.ringing)
  }

  /** Not exposed, and a coming no-answer excludes ONGOING. */
  ghost predicate Disciplined(s: System) {
    && !Exposed(s)
    && (Pending(s, Missing) || Pending(s, TellingNoAnswer) ==> !s.call.status.Ongoing?)
    && NoAnswerAndRoomDeleted(Ongoing) !in s.log
  }

  lemma StillPending(s: System, m: Move, a: Access)
    requires Pending(s, a) && (CanTurn(s, m) ==> s.threads[m.thread][0] != a)
    ensures Pending(Next(s, m), a)
  {
    var t, k :| 0 <= t < |s.threads| && 0 <= k < |s.threads[t]| && s.threads[t][k] == a;
    var s' := Next(s, m);
    if CanTurn(s, m) && m.thread == t {
      var more := Continues(s.call, s.threads[t][0]);
      assert s'.threads[t][|more| + k - 1] == a;
    } else {
      assert s'.threads[t][k] == a;
    }
  }

  lemma StillRinging(c: Call, a: Access)
    requires Writes(c, a).status.Ringing?
    ensures c.status.Ringing? && !a.Answering?
    ensures Writes(c, a).ringing == if a.Removing? then c.ringing - {a.user} else c.ringing
  {
  }

  lemma AnswersStayPending(s: System, m: Move, v: string)
    requires Next(s, m).call.status.Ringing? && Pending(s, Answering(v))
    ensures Pending(Next(s, m), Answering(v))
  {
    if CanTurn(s, m) {
      StillRinging(s.call, s.threads[m.thread][0]);
    }
    StillPending(s, m, Answering(v));
  }

  lemma OutOfTheRingBefore(s: System, m: Move, v: string)
    requires Next(s, m).call.status.Ringing? && v !in Next(s, m).call.ringing
    requires Pending(s, Answering(v)) && !RemovesAnAnswerer(s, m)
    ensures v !in s.call.ringing
  {
    hide Pending;
    if CanTurn(s, m) {
      StillRinging(s.call, s.threads[m.thread][0]);
    }
  }

  lemma NewAnswersRing(s: System, m: Move, u: string)
    requires Next(s, m).call.status.Ringing? && u !in Next(s, m).call.ringing && Pending(Next(s, m), Answering(u))
    ensures Pending(s, Answering(u))
  {
    PendingAfterNext(s, m);
    hide Pending;
    if CanTurn(s, m) {
      StillRinging(s.call, s.threads[m.thread][0]);
    }
  }

  /** Only a self race exposes the call. */
  lemma ExposedBefore(s: System, m: Move)
    requires Exposed(Next(s, m)) && !RemovesAnAnswerer(s, m)
    ensures Exposed(s)
  {
    assert s.call.status.Ringing?;
    hide Pending, Next, RemovesAnAnswerer;
    var u :| Pending(Next(s, m), Answering(u));
    NewAnswersRing(s, m, u);
    forall v | Pending(s, Answering(v)) ensures v !in s.call.ringing {
      AnswersStayPending(s, m, v);
      OutOfTheRingBefore(s, m, v);
    }
  }

  /** An answer and a coming no-answer expose the call. */
  lemma NoAnswerToComeExposes(s: System, u: string)
    requires Fair(s) && s.call.status.Ringing? && Pending(s, Answering(u))
    requires Pending(s, Missing) || Pending(s, TellingNoAnswer)
    ensures Exposed(s)
  {
    hide Pending;
  }

  lemma UnexposedStep(s: System, m: Move)
    requires Fair(s) && Disciplined(s) && !Exposed(Next(s, m))
    ensures Disciplined(Next(s, m))
  {
    PendingAfterNext(s, m);
    if CanTurn(s, m) && s.threads[m.thread][0].Answering? && s.call.status.Ringing? {
      assert Pending(s, s.threads[m.thread][0]);
      if Pending(s, Missing) || Pending(s, TellingNoAnswer) {
        NoAnswerToComeExposes(s, s.threads[m.thread][0].user);
        assert false;
      }
    }
    hide Pending, Exposed, Fair;
  }

  lemma NextIsDisciplined(s: System, m: Move)
    requires Fair(s) && Disciplined(s) && !RemovesAnAnswerer(s, m)
    ensures Disciplined(Next(s, m))
  {
    hide Pending, Fair, Exposed, Next, RemovesAnAnswerer;
    if Exposed(Next(s, m)) {
      ExposedBefore(s, m);
    }
    UnexposedStep(s, m);
  }

  lemma {:induction false} DisciplineIsKept(s: System, moves: seq<Move>)
    requires Fair(s) && Disciplined(s) && NoSelfRace(s, moves)
    ensures Disciplined(RunRace(s, moves))
  {
    hide Next, Fair, Disciplined, RemovesAnAnswerer;
    if moves != [] {
      var n := |moves| - 1;
      assert forall i | 0 <= i < n :: moves[..n][..i] == moves[..i];
      DisciplineIsKept(s, moves[..n]);
      RunIsFair(s, moves[..n]);
      assert !RemovesAnAnswerer(RunRace(s, moves[..n]), moves[n]);
      NextIsDisciplined(RunRace(s, moves[..n]), moves[n]);
    }
  }

  /**
   Main result: without such a self race, no-answer is never told (nor the room deleted for it) on an ONGOING
   call.
   */
  lemma NoFalseNoAnswer(caller: string, room: string, receivers: set<string>, now: int, moves: seq<Move>)
    requires NoSelfRace(Start(caller, room, receivers, now), moves)
    ensures NoAnswerAndRoomDeleted(Ongoing) !in RunRace(Start(caller, room, receivers, now), moves).log
  {
    StartIsFair(caller, room, receivers, now);
    DisciplineIsKept(Start(caller, room, receivers, now), moves);
  }

  // ---- Exactly when it can be told ----------------------------------------------------------------

  /** Threads hold at most one access, except a last rejection between its claim and its no-answer. */
  ghost predicate Shaped(s: System) {
    forall t | 0 <= t < |s.threads| :: |s.threads[t]| <= 1 || s.threads[t] == [Missing, TellingNoAnswer]
  }

  /** When nobody is left to ring, somebody is about to claim MISSED. */
  ghost predicate LastRejectionPends(s: System) {
    s.call.status.Ringing? && s.call.ringing == {} && s.call.rung != {} ==> [Missing, TellingNoAnswer] in s.threads
  }

  /** No-answer is only told, and only comes, when nobody rings any more. */
  ghost predicate ToldWhenNobodyRings(s: System) {
    forall seen | NoAnswerAndRoomDeleted(seen) in s.log :: s.call.ringing == {}
  }

  ghost predicate InForm(s: System) {
    Fair(s) && Shaped(s) && LastRejectionPends(s) && ToldWhenNobodyRings(s)
  }

  lemma NextIsShaped(s: System, m: Move)
    requires Shaped(s)
    ensures Shaped(Next(s, m))
  {
  }

  lemma NextKeepsLastRejection(s: System, m: Move)
    requires Fair(s) && Shaped(s) && LastRejectionPends(s)
    ensures LastRejectionPends(Next(s, m))
  {
    var s' := Next(s, m);
    hide Pending, Fair;
    if s'.call.status.Ringing? && s'.call.ringing == {} && s'.call.rung != {} {
      if s.call.ringing != {} {
        assert CanTurn(s, m) && |s.threads[m.thread]| == 1;
        assert s'.threads[m.thread] == [Missing, TellingNoAnswer] + [] == [Missing, TellingNoAnswer];
      } else {
        var t :| 0 <= t < |s.threads| && s.threads[t] == [Missing, TellingNoAnswer];
        assert s'.threads[t] == [Missing, TellingNoAnswer];
      }
    }
  }

  lemma NextIsInForm(s: System, m: Move)
    requires InForm(s)
    ensures InForm(Next(s, m))
  {
    NextIsFair(s, m);
    NextIsShaped(s, m);
    NextKeepsLastRejection(s, m);
    PendingAfterNext(s, m);
    hide Pending, Shaped, LastRejectionPends;
  }

  lemma {:induction false} RunIsInForm(s: System, moves: seq<Move>)
    requires InForm(s)
    ensures InForm(RunRace(s, moves))
  {
    if moves != [] {
      RunIsInForm(s, moves[..|moves| - 1]);
      NextIsInForm(RunRace(s, moves[..|moves| - 1]), moves[|moves| - 1]);
      hide InForm, Next;
    }
  }

  lemma StartIsInForm(caller: string, room: string, receivers: set<string>, now: int)
    ensures InForm(Start(caller, room, receivers, now)) && !Exposed(Start(caller, room, receivers, now))
  {
    StartIsFair(caller, room, receivers, now);
  }

  /** In any run, a no-answer told on an ONGOING call means its own answerer also rejected it. */
  lemma FalseNoAnswerIsASelfRace(caller: string, room: string, receivers: set<string>, now: int, moves: seq<Move>)
    requires NoAnswerAndRoomDeleted(Ongoing) in RunRace(Start(caller, room, receivers, now), moves).log
    ensures var s := RunRace(Start(caller, room, receivers, now), moves);
            exists u :: s.call.answeredBy == Some(u) && Won(u) in s.log && Removed(u) in s.log
    ensures !NoSelfRace(Start(caller, room, receivers, now), moves)
  {
    StartIsInForm(caller, room, receivers, now);
    RunIsInForm(Start(caller, room, receivers, now), moves);
    ToldMeansAnswered(Start(caller, room, receivers, now), moves);
    if NoSelfRace(Start(caller, room, receivers, now), moves) {
      NoFalseNoAnswer(caller, room, receivers, now, moves);
    }
    hide RunRace, Pending;
  }

  lemma TellingMeansAnswered(s: System, m: Move)
    requires InForm(s)
    ensures s.call.answeredBy.Some? ==> Next(s, m).call.answeredBy.Some?
    ensures NoAnswerAndRoomDeleted(Ongoing) in Next(s, m).log ==>
              NoAnswerAndRoomDeleted(Ongoing) in s.log || Next(s, m).call.answeredBy.Some?
  {
    NextIsFair(s, m);
    hide Pending, Shaped, LastRejectionPends, ToldWhenNobodyRings;
  }

  lemma {:induction false} ToldMeansAnswered(s: System, moves: seq<Move>)
    requires InForm(s) && s.log == []
    ensures NoAnswerAndRoomDeleted(Ongoing) in RunRace(s, moves).log ==> RunRace(s, moves).call.answeredBy.Some?
  {
    if moves != [] {
      var before := moves[..|moves| - 1];
      ToldMeansAnswered(s, before);
      RunIsInForm(s, before);
      TellingMeansAnswered(RunRace(s, before), moves[|moves| - 1]);
      hide InForm, Next;
    }
  }

  // ---- An exposed call: the others reject, the answer lands, then no-answer is told ------------------

  /** `more`, without a further self race, leads from `s` to a no-answer told on an ONGOING call. */
  ghost predicate TellsFalsely(s: System, more: seq<Move>) {
    NoSelfRace(s, more) && NoAnswerAndRoomDeleted(Ongoing) in RunRace(s, more).log
  }

  lemma {:induction false} RunRaceConcat(s: System, p: seq<Move>, q: seq<Move>)
    ensures RunRace(s, p + q) == RunRace(RunRace(s, p), q)
    decreases |q|
  {
    hide Next;
    if q == [] {
      assert p + q == p;
    } else {
      RunRaceConcat(s, p, q[..|q| - 1]);
      assert (p + q)[..|p + q| - 1] == p + q[..|q| - 1];
    }
  }

  lemma NoSelfRaceConcat(s: System, p: seq<Move>, q: seq<Move>)
    requires NoSelfRace(s, p) && NoSelfRace(RunRace(s, p), q)
    ensures NoSelfRace(s, p + q)
  {
    hide RunRace, RemovesAnAnswerer;
    forall i | 0 <= i < |p + q| ensures !RemovesAnAnswerer(RunRace(s, (p + q)[..i]), (p + q)[i]) {
      PrefixOfConcat(s, p, q, i);
    }
  }

  lemma PrefixOfConcat(s: System, p: seq<Move>, q: seq<Move>, i: nat)
    requires i < |p + q|
    ensures RunRace(s, (p + q)[..i]) == if i < |p| then RunRace(s, p[..i]) else RunRace(RunRace(s, p), q[..i - |p|])
    ensures (p + q)[i] == if i < |p| then p[i] else q[i - |p|]
  {
    hide RunRace;
    if i < |p| {
      assert (p + q)[..i] == p[..i];
    } else {
      assert (p + q)[..i] == p + q[..i - |p|];
      RunRaceConcat(s, p, q[..i - |p|]);
    }
  }

  lemma OneMove(s: System, m: Move)
    ensures RunRace(s, [m]) == Next(s, m)
    ensures !RemovesAnAnswerer(s, m) ==> NoSelfRace(s, [m])
  {
    assert [m][..0] == [];
    assert RunRace(s, []) == s;
    hide Next, RemovesAnAnswerer;
  }

  /** A sequence of moves, each followed while no self race happens. */
  lemma Then(s: System, p: seq<Move>, m: Move) returns (q: seq<Move>)
    requires NoSelfRace(s, p) && !RemovesAnAnswerer(RunRace(s, p), m)
    ensures q == p + [m] && NoSelfRace(s, q) && RunRace(s, q) == Next(RunRace(s, p), m)
  {
    q := p + [m];
    OneMove(RunRace(s, p), m);
    NoSelfRaceConcat(s, p, [m]);
    RunRaceConcat(s, p, [m]);
  }

  /** A user without a pending answer rejects an exposed call: it stays exposed, with one fewer to ring. */
  lemma OneRejects(s: System, v: string) returns (more: seq<Move>)
    requires InForm(s) && Exposed(s) && v in s.call.ringing
    ensures NoSelfRace(s, more)
    ensures var s' := RunRace(s, more); InForm(s') && Exposed(s') && s'.call.ringing == s.call.ringing - {v}
  {
    var t := |s.threads|;
    assert !Pending(s, Answering(v));
    assert NoSelfRace(s, []) && RunRace(s, []) == s;
    var s1 := Next(s, Ask(RejectCall(v)));
    assert s1.threads[t] == [ReadForReject(v)];
    more := Then(s, [], Ask(RejectCall(v)));
    var s2 := Next(s1, Turn(t));
    RejectsPastCheck(s, v);
    more := Then(s, more, Turn(t));
    more := Then(s, more, Turn(t));
    NextIsInForm(s, Ask(RejectCall(v)));
    NextIsInForm(s1, Turn(t));
    NextIsInForm(s2, Turn(t));
    RejectionKeepsAnswers(s, v);
    hide RunRace, InForm, Pending;
  }

  /** A thread with one access left takes it. */
  lemma TurnOne(s: System, t: nat, a: Access)
    requires t < |s.threads| && s.threads[t] == [a]
    ensures Next(s, Turn(t)) == System(Writes(s.call, a), s.threads[t := Continues(s.call, a)], s.log
             + Signals(s.call, a))
    ensures s.log + [] == s.log
  {
    assert Continues(s.call, a) + [a][1..] == Continues(s.call, a);
  }

  lemma RejectsPastCheck(s: System, v: string)
    requires Fair(s) && Exposed(s) && v in s.call.ringing
    ensures var t := |s.threads|;
            var s1 := Next(s, Ask(RejectCall(v)));
            var s2 := Next(s1, Turn(t));
            && s2 == System(s.call, s.threads + [[Removing(v)]], s.log)
            && !RemovesAnAnswerer(s, Ask(RejectCall(v))) && !RemovesAnAnswerer(s1, Turn(t))
                && !RemovesAnAnswerer(s2, Turn(t))
  {
    var t := |s.threads|;
    var s1 := Next(s, Ask(RejectCall(v)));
    var s2 := Next(s1, Turn(t));
    TurnOne(s1, t, ReadForReject(v));
    assert s2.threads == s.threads + [[Removing(v)]];
    PendingAfterNext(s, Ask(RejectCall(v)));
    PendingAfterNext(s1, Turn(t));
    hide Pending;
    assert !Pending(s, Answering(v));
  }

  lemma StaysExposed(s: System, m: Move)
    requires Exposed(s) && Next(s, m).call.status.Ringing?
    requires CanTurn(s, m) ==> !s.threads[m.thread][0].ReadForAnswer?
    ensures Exposed(Next(s, m))
  {
    var u :| Pending(s, Answering(u));
    AnswersStayPending(s, m, u);
    forall v | Pending(Next(s, m), Answering(v)) ensures v !in Next(s, m).call.ringing {
      PendingAfterNext(s, m);
      if CanTurn(s, m) {
        StillRinging(s.call, s.threads[m.thread][0]);
      }
      hide Pending;
      assert Pending(s, Answering(v));
    }
  }

  lemma RejectionKeepsAnswers(s: System, v: string)
    requires Fair(s) && Exposed(s) && v in s.call.ringing
    ensures var t := |s.threads|;
            var s3 := Next(Next(Next(s, Ask(RejectCall(v))), Turn(t)), Turn(t));
            Exposed(s3) && s3.call.ringing == s.call.ringing - {v}
  {
    var t := |s.threads|;
    RejectsPastCheck(s, v);
    var s1 := Next(s, Ask(RejectCall(v)));
    var s2 := Next(s1, Turn(t));
    TurnOne(s2, t, Removing(v));
    assert s1.threads[t] == [ReadForReject(v)] && s1.call == s.call;
    hide Pending, Next, Fair;
    StaysExposed(s, Ask(RejectCall(v)));
    StaysExposed(s1, Turn(t));
    StaysExposed(s2, Turn(t));
  }

  lemma {:induction false} AllReject(s: System) returns (more: seq<Move>)
    requires InForm(s) && Exposed(s)
    ensures NoSelfRace(s, more)
    ensures var s' := RunRace(s, more); InForm(s') && Exposed(s') && s'.call.ringing == {}
    decreases |s.call.ringing|
  {
    if s.call.ringing == {} {
      more := [];
    } else {
      var v :| v in s.call.ringing;
      var one := OneRejects(s, v);
      hide InForm, Exposed, NoSelfRace;
      var rest := AllReject(RunRace(s, one));
      NoSelfRaceConcat(s, one, rest);
      RunRaceConcat(s, one, rest);
      more := one + rest;
    }
  }

  /** The heads of an exposed call that nobody rings any more: an answer, and a no-answer to come. */
  lemma ExposedHeads(s: System) returns (u: string, ta: nat, tm: nat)
    requires InForm(s) && Exposed(s) && s.call.ringing == {}
    ensures ta < |s.threads| && s.threads[ta] == [Answering(u)]
    ensures tm < |s.threads| && s.threads[tm] == [Missing, TellingNoAnswer] && ta != tm
  {
    u :| Pending(s, Answering(u));
    var t, k :| 0 <= t < |s.threads| && 0 <= k < |s.threads[t]| && s.threads[t][k] == Answering(u);
    ta := t;
    assert u in s.call.rung;
    tm :| 0 <= tm < |s.threads| && s.threads[tm] == [Missing, TellingNoAnswer];
  }

  lemma ExposedTells(s: System) returns (more: seq<Move>)
    requires InForm(s) && Exposed(s)
    ensures TellsFalsely(s, more)
  {
    more := AllReject(s);
    var s0 := RunRace(s, more);
    var u, ta, tm := ExposedHeads(s0);
    assert s0.call.status.Ringing?;
    hide RunRace, InForm, Exposed, Pending, NoSelfRace;
    var s1, s2, s3 := Next(s0, Turn(ta)), Next(Next(s0, Turn(ta)), Turn(tm)),
        Next(Next(Next(s0, Turn(ta)), Turn(tm)), Turn(tm));
    assert s1.call.status.Ongoing? && s1.threads[tm] == [Missing, TellingNoAnswer];
    assert s2.call.status.Ongoing? && s2.threads[tm] == [] + [TellingNoAnswer] == [TellingNoAnswer];
    assert NoAnswerAndRoomDeleted(Ongoing) in s3.log;
    more := Then(s, more, Turn(ta));
    more := Then(s, more, Turn(tm));
    more := Then(s, more, Turn(tm));
  }

  // ---- The exact condition ------------------------------------------------------------------------

  ghost predicate NeverExposed(s: System, moves: seq<Move>) {
    forall i | 0 <= i <= |moves| :: !Exposed(RunRace(s, moves[..i]))
  }

  /** A history that never exposes the call keeps its discipline. */
  lemma {:induction false} UnexposedIsDisciplined(s: System, moves: seq<Move>)
    requires InForm(s) && Disciplined(s) && NeverExposed(s, moves)
    ensures Disciplined(RunRace(s, moves))
  {
    if moves != [] {
      var n := |moves| - 1;
      assert forall i | 0 <= i <= n :: moves[..n][..i] == moves[..i];
      assert moves[..|moves|] == moves;
      hide Exposed, Next, InForm;
      UnexposedIsDisciplined(s, moves[..n]);
      RunIsInForm(s, moves[..n]);
      InFormIsFair(RunRace(s, moves[..n]));
      UnexposedStep(RunRace(s, moves[..n]), moves[n]);
    }
  }

  /**
   Main result: a history, at each of its points and whatever follows without a further self race, never has no-answer
   told on an ONGOING call, if and only if it never exposes the call.
   */
  lemma FalseNoAnswerIff(caller: string, room: string, receivers: set<string>, now: int, moves: seq<Move>)
    ensures var s := Start(caller, room, receivers, now);
            (forall i, more | 0 <= i <= |moves| :: !TellsFalsely(RunRace(s, moves[..i]), more)) <==>
                NeverExposed(s, moves)
  {
    var s := Start(caller, room, receivers, now);
    StartIsInForm(caller, room, receivers, now);
    StartIsFair(caller, room, receivers, now);
    hide RunRace, InForm, Exposed, Pending;
    if NeverExposed(s, moves) {
      forall i, more | 0 <= i <= |moves| ensures !TellsFalsely(RunRace(s, moves[..i]), more) {
        var here := RunRace(s, moves[..i]);
        assert forall j | 0 <= j <= i :: moves[..i][..j] == moves[..j];
        UnexposedIsDisciplined(s, moves[..i]);
        RunIsInForm(s, moves[..i]);
        if NoSelfRace(here, more) {
          InFormIsFair(here);
          DisciplineIsKept(here, more);
        }
      }
    } else {
      var i :| 0 <= i <= |moves| && Exposed(RunRace(s, moves[..i]));
      RunIsInForm(s, moves[..i]);
      var more := ExposedTells(RunRace(s, moves[..i]));
    }
  }

  lemma InFormIsFair(s: System)
    requires InForm(s)
    ensures Fair(s)
  {
  }

  /** It happens in any call: a receiver answers and rejects at once. */
  lemma SelfRaceTellsNoAnswer(
    caller: string, room: string, receivers: set<string>, u: string, now: int) returns (moves: seq<Move>)
    requires u in receivers
    ensures NoAnswerAndRoomDeleted(Ongoing) in RunRace(Start(caller, room, receivers, now), moves).log
  {
    var s0 := Start(caller, room, receivers, now);
    StartIsInForm(caller, room, receivers, now);
    moves := [Ask(AnswerCall(u)), Ask(RejectCall(u)), Turn(0), Turn(1), Turn(1)];
    FiveMoves(s0, moves[0], moves[1], moves[2], moves[3], moves[4]);
    var s5 := Next(Next(Next(Next(Next(s0, moves[0]), moves[1]), moves[2]), moves[3]), moves[4]);
    SelfRaceExposes(s0, u);
    RunIsInForm(s0, moves);
    hide Next, InForm, Exposed, NoSelfRace;
    var more := ExposedTells(s5);
    RunRaceConcat(s0, moves, more);
    moves := moves + more;
  }

  lemma FiveMoves(s: System, a: Move, b: Move, c: Move, d: Move, e: Move)
    ensures RunRace(s, [a, b, c, d, e]) == Next(Next(Next(Next(Next(s, a), b), c), d), e)
  {
    hide Next;
    OneMove(s, a);
    RunRaceConcat(s, [a], [b]);
    RunRaceConcat(s, [a, b], [c]);
    RunRaceConcat(s, [a, b, c], [d]);
    RunRaceConcat(s, [a, b, c, d], [e]);
    assert [a] + [b] == [a, b] && [a, b] + [c] == [a, b, c] && [a, b, c] + [d] == [a, b, c, d];
    assert [a, b, c, d] + [e] == [a, b, c, d, e];
    forall s': System, m: Move ensures RunRace(s', [m]) == Next(s', m) { OneMove(s', m); }
  }

  lemma SelfRaceExposes(s0: System, u: string)
    requires s0.threads == [] && s0.call.status.Ringing? && u in s0.call.ringing && u in s0.call.rung
    ensures Exposed(Next(Next(Next(Next(Next(s0, Ask(AnswerCall(u))), Ask(RejectCall(u))), Turn(0)), Turn(1)), Turn(1)))
  {
    var s2 := Next(Next(s0, Ask(AnswerCall(u))), Ask(RejectCall(u)));
    assert s2.threads == [[ReadForAnswer(u)], [ReadForReject(u)]];
    TurnOne(s2, 0, ReadForAnswer(u));
    var s3 := Next(s2, Turn(0));
    TurnOne(s3, 1, ReadForReject(u));
    var s4 := Next(s3, Turn(1));
    TurnOne(s4, 1, Removing(u));
    var s5 := Next(s4, Turn(1));
    assert s5.threads[0] == [Answering(u)] && s5.threads[0][0] == Answering(u);
    assert |s5.threads| == 2 && forall k | 0 <= k < |s5.threads[1]| :: !s5.threads[1][k].Answering?;
    assert Pending(s5, Answering(u));
  }

  // ---- A request alone is the serial endpoint ---------------------------------------------------

  function Cost(a: Access): nat {
    match a
    case ReadForHangup(_) => 5
    case ReadForReject(_) => 4
    case Cancelling => 4
    case ReadAfterLostCancel => 3
    case Removing(_) => 3
    case Ending => 2
    case ReadForAnswer(_) => 2
    case _ => 1
  }

  function CostOf(p: seq<Access>): nat {
    if p == [] then 0 else Cost(p[0]) + CostOf(p[1..])
  }

  lemma CostOfMore(a: Access, rest: seq<Access>)
    ensures CostOf([a] + rest) == Cost(a) + CostOf(rest)
  {
    assert ([a] + rest)[1..] == rest;
  }

  lemma ContinuesShrinks(c: Call, a: Access, rest: seq<Access>)
    ensures CostOf(Continues(c, a) + rest) < Cost(a) + CostOf(rest)
  {
    var more := Continues(c, a);
    if more == [] {
      assert more + rest == rest;
    } else if |more| == 1 {
      CostOfMore(more[0], rest);
      assert more == [more[0]];
    } else {
      CostOfMore(TellingNoAnswer, rest);
      CostOfMore(Missing, [TellingNoAnswer] + rest);
      assert more + rest == [Missing] + ([TellingNoAnswer] + rest);
    }
    hide CostOf;
  }

  /** Runs a program without interruption: the row it leaves and what it signals. */
  ghost function Alone(c: Call, p: seq<Access>): (Call, seq<Signal>)
    decreases CostOf(p)
  {
    if p == [] then (c, [])
    else
      ContinuesShrinks(c, p[0], p[1..]);
      var (c', signals) := Alone(Writes(c, p[0]), Continues(c, p[0]) + p[1..]);
      (c', Signals(c, p[0]) + signals)
  }

  lemma AloneFirst(c: Call, a: Access, rest: seq<Access>)
    ensures var (c', signals) := Alone(Writes(c, a), Continues(c, a) + rest);
            Alone(c, [a] + rest) == (c', Signals(c, a) + signals)
  {
    assert ([a] + rest)[1..] == rest;
  }

  lemma AloneOne(c: Call, a: Access)
    ensures var (c', signals) := Alone(Writes(c, a), Continues(c, a));
            Alone(c, [a]) == (c', Signals(c, a) + signals)
  {
    AloneFirst(c, a, []);
    assert [a] + [] == [a] && Continues(c, a) + [] == Continues(c, a);
  }

  function Serial(c: Call, q: Request): (Call, seq<Signal>) {
    match q
    case AnswerCall(u) => (Answered(c, u).0, Answered(c, u).2)
    case RejectCall(u) => (Rejected(c, u).0, Rejected(c, u).2)
    case HangupCall(who) => (HungUp(c, who).0, HungUp(c, who).2)
    case AskActive(now) => (Swept(c, now), [])
    case WebhookEnded(room) => (SessionEnded(c, room), [])
  }

  /** An uninterrupted request leaves the row, and signals, what the endpoint on its own does. */
  lemma AloneIsSerial(c: Call, q: Request)
    ensures Alone(c, [First(q)]) == Serial(c, q)
  {
    AloneOne(c, First(q));
    forall x: seq<Signal> ensures x + [] == x && [] + x == x { }
    forall c': Call ensures Alone(c', []) == (c', []) { }
    hide Alone;
    match q {
      case AnswerCall(u) => AloneOne(c, Answering(u));
      case RejectCall(u) => RejectAlone(c, u);
      case HangupCall(who) => HangupAlone(c, who);
      case _ =>
    }
  }

  lemma EndingAlone(c: Call)
    requires c.status.Ongoing?
    ensures Alone(c, [Ending]) == (ClaimEnded(c), [RoomDeleted])
  {
    assert Alone(ClaimEnded(c), []) == (ClaimEnded(c), []);
    hide Alone;
    AloneOne(c, Ending);
    AloneOne(ClaimEnded(c), DeletingRoom);
    assert [RoomDeleted] + [] == [] + [RoomDeleted] == [RoomDeleted];
  }

  lemma CancellingAlone(c: Call)
    requires c.status.Ringing?
    ensures Alone(c, [Cancelling]) == (ClaimCancelled(c), [RoomDeleted])
  {
    assert Alone(ClaimCancelled(c), []) == (ClaimCancelled(c), []);
    hide Alone;
    AloneOne(c, Cancelling);
    AloneOne(ClaimCancelled(c), DeletingRoom);
    assert [RoomDeleted] + [] == [] + [RoomDeleted] == [RoomDeleted];
  }

  lemma HangupAlone(c: Call, who: User)
    ensures Alone(c, [ReadForHangup(who)]) == (HungUp(c, who).0, HungUp(c, who).2)
  {
    assert Alone(c, []) == (c, []);
    hide Alone, Rejected, IsParticipant;
    AloneOne(c, ReadForHangup(who));
    if IsParticipant(c, who) && !Terminal(c.status) {
      if !c.status.Ringing? {
        EndingAlone(c);
      } else if c.caller != who.id {
        RejectAlone(c, who.id);
        var signals := Rejected(c, who.id).2;
        assert [] + signals == signals;
      } else {
        CancellingAlone(c);
      }
    }
    assert [] + [RoomDeleted] == [RoomDeleted];
  }

  lemma RejectAlone(c: Call, u: string)
    ensures Alone(c, [ReadForReject(u)]) == (Rejected(c, u).0, Rejected(c, u).2)
  {
    assert Alone(c, []) == (c, []);
    AloneOne(c, ReadForReject(u));
    if u in c.rung && c.status.Ringing? {
      RemovalAlone(c, u);
    }
    hide Alone;
    forall x: seq<Signal> ensures x + [] == x && [] + x == x { }
  }

  lemma RemovalAlone(c: Call, u: string)
    requires c.status.Ringing?
    ensures var c1 := ClaimRemoval(c, u);
            Alone(c, [Removing(u)])
            == if c1.ringing == {} then (ClaimMissed(c1), [Removed(u), NoAnswerAndRoomDeleted(Missed)])
                else (c1, [Removed(u)])
  {
    var c1 := ClaimRemoval(c, u);
    var c2 := ClaimMissed(c1);
    assert Alone(c1, []) == (c1, []) && Alone(c2, []) == (c2, []);
    hide Alone;
    AloneOne(c, Removing(u));
    if c1.ringing == {} {
      AloneFirst(c1, Missing, [TellingNoAnswer]);
      assert [Missing] + [TellingNoAnswer] == [Missing, TellingNoAnswer];
      assert Continues(c1, Missing) + [TellingNoAnswer] == [TellingNoAnswer];
      AloneOne(c2, TellingNoAnswer);
      hide ClaimRemoval, ClaimMissed;
      assert [NoAnswerAndRoomDeleted(Missed)] + [] == [NoAnswerAndRoomDeleted(Missed)];
      assert [] + [NoAnswerAndRoomDeleted(Missed)] == [NoAnswerAndRoomDeleted(Missed)];
      assert [Removed(u)] + [NoAnswerAndRoomDeleted(Missed)] == [Removed(u), NoAnswerAndRoomDeleted(Missed)];
    } else {
      assert [Removed(u)] + [] == [Removed(u)];
    }
  }
}
