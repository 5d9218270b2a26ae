/**
 Wrong delivery codes: each validation reads the count of attempts, compares the code, and only then writes the
 count it computed. When the attempts are counted exactly, when the ceiling holds, and how it fails.
 */
module TurboAttempts {
  import opened Wrappers
  import opened Encaissement
  import opened TurboRows
  import opened TurboInterleaving
  import opened TurboSystem
  import opened TurboConfirmation

  // ---- One handler at a time --------------------------------------------------------------------------

  predicate ComparesWrong(b: Base, e: Event, r: string) {
    e.CodeEntered? && e.numero == r && Validate(b, r, e.code, e.apiKey).WrongCode?
  }

  /** Wrong codes compared for a delivery over a serial run. */
  function WrongCodes(b: Base, es: seq<Event>, r: string): nat {
    if es == [] then 0
    else
      var init := es[..|es| - 1];
      WrongCodes(b, init, r) + if ComparesWrong(Run(b, init), es[|es| - 1], r) then 1 else 0
  }

  lemma HandleCountsAttempt(b: Base, e: Event, r: string)
    requires r in b.deliveries
    ensures r in Handle(b, e).deliveries
    ensures Handle(b, e).deliveries[r].attempts == b.deliveries[r].attempts + if ComparesWrong(b, e, r) then 1 else 0
    ensures ComparesWrong(b, e, r) ==> b.deliveries[r].attempts < MAX_CODE_ATTEMPTS
  {
    HandleOnDeliveries(b, e);
    hide Handle, GroupNamed;
  }

  /** Main result: one handler at a time, every wrong code is counted, so at most five are ever compared. */
  lemma {:induction false} SerialWrongCodes(b: Base, es: seq<Event>, r: string)
    requires r in b.deliveries
    ensures r in Run(b, es).deliveries
    ensures Run(b, es).deliveries[r].attempts == b.deliveries[r].attempts + WrongCodes(b, es, r)
    ensures WrongCodes(b, es, r) > 0 ==> b.deliveries[r].attempts + WrongCodes(b, es, r) <= 5
  {
    hide Handle, ComparesWrong;
    if es != [] {
      var init := es[..|es| - 1];
      SerialWrongCodes(b, init, r);
      HandleCountsAttempt(Run(b, init), es[|es| - 1], r);
    }
  }

  // ---- Interleaved ------------------------------------------------------------------------------------

  /** The move compares a wrong code. */
  predicate Compares(s: System, m: Move, r: string) {
    Access(s, m).Some? && Access(s, m).value.Start? && ComparesWrong(s.base, Access(s, m).value.event, r)
  }

  /** Wrong codes compared over an interleaved run. */
  function WrongCodesInterleaved(s: System, moves: seq<Move>, r: string): nat {
    if moves == [] then 0
    else
      var init := moves[..|moves| - 1];
      WrongCodesInterleaved(s, init, r) + if Compares(RunSystem(s, init), moves[|moves| - 1], r) then 1 else 0
  }

  /** Some thread has compared a wrong code and not written its count yet. */
  ghost predicate Pends(s: System, r: string) {
    exists t, k :: 0 <= t < |s.threads| && 0 <= k < |s.threads[t]|
                   && s.threads[t][k].WriteAttempts? && s.threads[t][k].ref == r
  }

  /** A wrong code is compared while another one is not counted yet. */
  ghost predicate Overlaps(s: System, m: Move, r: string) {
    Compares(s, m, r) && Pends(s, r)
  }

  ghost predicate NeverOverlaps(s: System, moves: seq<Move>, r: string) {
    forall k | 0 <= k < |moves| :: !Overlaps(RunSystem(s, moves[..k]), moves[k], r)
  }

  /** Thread `t` is about to write `n`. */
  predicate Holds(s: System, t: int, r: string, n: nat) {
    0 <= t < |s.threads| && s.threads[t] == [WriteAttempts(r, n)]
  }

  /** A handler's first read, and the write of a count, are alone in their thread. */
  ghost predicate Lone(s: System) {
    forall t, k | 0 <= t < |s.threads| && 0 <= k < |s.threads[t]| ::
      s.threads[t][k].Start? || s.threads[t][k].WriteAttempts? ==> |s.threads[t]| == 1
  }

  // ---- One access -------------------------------------------------------------------------------------

  lemma PlanOfAttempts(b: Base, e: Event)
    ensures forall k | 0 <= k < |Plan(b, e)| :: !Plan(b, e)[k].Start?
    ensures forall k | 0 <= k < |Plan(b, e)| && Plan(b, e)[k].WriteAttempts? ::
              |Plan(b, e)| == 1 && ComparesWrong(b, e, Plan(b, e)[k].ref)
    ensures forall r | ComparesWrong(b, e, r) :: Plan(b, e) == [WriteAttempts(r, b.deliveries[r].attempts + 1)]
  {
    hide CarriesPayment, GroupNamed;
    if e.CodeEntered? {
      var v := Validate(b, e.numero, e.code, e.apiKey);
      assert v.WrongCode? ==> v.attempts == b.deliveries[e.numero].attempts + 1;
      hide Validate;
    } else {
      hide Validate, Stale;
    }
  }

  lemma DecidesAttempts(b: Base, i: Instr)
    ensures forall k | 0 <= k < |Exec(b, i).1| :: !Exec(b, i).1[k].Start?
    ensures forall k | 0 <= k < |Exec(b, i).1| && Exec(b, i).1[k].WriteAttempts? :: i.Start? && |Exec(b, i).1| == 1
    ensures forall r, n: nat :: Exec(b, i).1 == [WriteAttempts(r, n)] <==>
              i.Start? && ComparesWrong(b, i.event, r) && n == b.deliveries[r].attempts + 1
  {
    if i.Start? {
      PlanOfAttempts(b, i.event);
      hide Plan, ComparesWrong;
      forall r, n: nat | Exec(b, i).1 == [WriteAttempts(r, n)] ensures ComparesWrong(b, i.event, r) {
        assert Exec(b, i).1[0].WriteAttempts?;
      }
    } else {
      hide Plan, ComparesWrong, HasPending, Normalised, CourseAfter, OrderAfter, ActiveDeliveries;
    }
  }

  lemma ExecOnAttempts(b: Base, i: Instr, r: string)
    requires r in b.deliveries
    ensures r in Exec(b, i).0.deliveries
    ensures Exec(b, i).0.deliveries[r].attempts ==
              if i.WriteAttempts? && i.ref == r then i.attempts else b.deliveries[r].attempts
    ensures i.Start? ==> Exec(b, i).0 == b
  {
    hide Plan, HasPending, Clashes, Normalised, CourseAfter, OrderAfter;
  }

  lemma NextIsLone(s: System, m: Move)
    requires Lone(s)
    ensures Lone(Next(s, m))
  {
    if Access(s, m).Some? {
      DecidesAttempts(s.base, Access(s, m).value);
    }
    hide Exec, ClosedBy, ComparesWrong;
  }

  /** Who is about to write after a move: whoever was, but for the thread that moved, and a validation just failed. */
  lemma NextHolds(s: System, m: Move, t: int, r: string, n: nat)
    requires Lone(s)
    ensures Holds(Next(s, m), t, r, n) <==>
              if Access(s, m).Some? && m.thread == t
              then Compares(s, m, r) && n == s.base.deliveries[r].attempts + 1
              else Holds(s, t, r, n)
  {
    if Access(s, m).Some? {
      var p, i := s.threads[m.thread], Access(s, m).value;
      DecidesAttempts(s.base, i);
      hide Exec, ClosedBy, ComparesWrong;
      MoreAlone(s, m, r, n);
    }
  }

  lemma MoreAlone(s: System, m: Move, r: string, n: nat)
    requires Lone(s) && Access(s, m).Some?
    ensures var p := s.threads[m.thread];
            var more := Exec(s.base, p[0]).1;
            more + p[1..] == [WriteAttempts(r, n)] <==> more == [WriteAttempts(r, n)]
  {
    var p := s.threads[m.thread];
    var more := Exec(s.base, p[0]).1;
    DecidesAttempts(s.base, p[0]);
    hide Exec, ComparesWrong;
    assert |p| > 1 ==> !p[1].WriteAttempts? && p[1..][0] == p[1];
    assert more == [] ==> more + p[1..] == p[1..];
    if more + p[1..] == [WriteAttempts(r, n)] && more == [] {
      assert false;
    }
    if more == [WriteAttempts(r, n)] {
      assert p[0].Start?;
    }
  }

  /** The count after a move. */
  lemma NextAttempts(s: System, m: Move, r: string)
    requires r in s.base.deliveries
    ensures r in Next(s, m).base.deliveries
    ensures Next(s, m).base.deliveries[r].attempts ==
              if Access(s, m).Some? && Access(s, m).value.WriteAttempts? && Access(s, m).value.ref == r
              then Access(s, m).value.attempts else s.base.deliveries[r].attempts
  {
    if Access(s, m).Some? {
      ExecOnAttempts(s.base, Access(s, m).value, r);
    }
    hide Exec;
  }

  lemma PendsIff(s: System, r: string)
    requires Lone(s)
    ensures Pends(s, r) <==> exists t: int, n: nat :: Holds(s, t, r, n)
  {
    if t, k :| && 0 <= t < |s.threads| && 0 <= k < |s.threads[t]|
               && s.threads[t][k].WriteAttempts? && s.threads[t][k].ref == r {
      assert s.threads[t] == [WriteAttempts(r, s.threads[t][k].attempts)];
      assert Holds(s, t, r, s.threads[t][k].attempts);
    }
    if t: int, n: nat :| Holds(s, t, r, n) {
      assert s.threads[t][0].WriteAttempts?;
    }
  }

  /** An access that writes a count is the whole of its thread. */
  lemma WritesWhatItHolds(s: System, m: Move, r: string)
    requires Lone(s) && Access(s, m).Some? && Access(s, m).value.WriteAttempts? && Access(s, m).value.ref == r
    ensures Holds(s, m.thread, r, Access(s, m).value.attempts)
  {
  }

  // ---- Counting exactly, or falling behind for good ---------------------------------------------------

  /** Every wrong code compared is counted, or about to be by the one thread that compared the last. */
  ghost predicate Exact(s: System, r: string, compared: int) {
    && r in s.base.deliveries
    && (forall t: int, n: nat, t': int, n': nat | Holds(s, t, r, n) && Holds(s, t', r, n') :: t == t')
    && (forall t: int, n: nat | Holds(s, t, r, n) :: n == compared == s.base.deliveries[r].attempts + 1)
    && ((forall t: int, n: nat :: !Holds(s, t, r, n)) ==> s.base.deliveries[r].attempts == compared)
  }

  /** The count, and whatever is about to be written to it, are less than what was compared. */
  ghost predicate Behind(s: System, r: string, compared: int) {
    && r in s.base.deliveries && s.base.deliveries[r].attempts < compared
    && forall t: int, n: nat | Holds(s, t, r, n) :: n < compared
  }

  function One(compares: bool): nat {
    if compares then 1 else 0
  }

  lemma NextBehind(s: System, m: Move, r: string, compared: int)
    requires Lone(s) && Behind(s, r, compared)
    ensures Behind(Next(s, m), r, compared + One(Compares(s, m, r)))
  {
    NextAttempts(s, m, r);
    forall t: int, n: nat | Holds(Next(s, m), t, r, n) ensures n < compared + One(Compares(s, m, r)) {
      NextHolds(s, m, t, r, n);
    }
    if Access(s, m).Some? && Access(s, m).value.WriteAttempts? && Access(s, m).value.ref == r {
      WritesWhatItHolds(s, m, r);
    }
    hide Next, Access, Compares, Holds, Lone;
  }

  lemma NextFallsBehind(s: System, m: Move, r: string, compared: int)
    requires Lone(s) && Exact(s, r, compared) && Overlaps(s, m, r)
    ensures Behind(Next(s, m), r, compared + 1)
  {
    PendsIff(s, r);
    NextAttempts(s, m, r);
    forall t: int, n: nat | Holds(Next(s, m), t, r, n) ensures n < compared + 1 {
      NextHolds(s, m, t, r, n);
    }
    hide Next, Holds, Lone, Pends, ComparesWrong;
  }

  lemma NextComparesExactly(s: System, m: Move, r: string, compared: int)
    requires Lone(s) && Exact(s, r, compared) && Compares(s, m, r) && !Pends(s, r)
    ensures Exact(Next(s, m), r, compared + 1)
  {
    PendsIff(s, r);
    NextAttempts(s, m, r);
    NextHolds(s, m, m.thread, r, s.base.deliveries[r].attempts + 1);
    forall t: int, n: nat | Holds(Next(s, m), t, r, n) ensures t == m.thread && n == s.base.deliveries[r].attempts + 1 {
      NextHolds(s, m, t, r, n);
    }
    hide Next, Holds, Lone, Pends, ComparesWrong;
  }

  lemma NextCountsExactly(s: System, m: Move, r: string, compared: int)
    requires Lone(s) && Exact(s, r, compared) && !Compares(s, m, r)
    ensures Exact(Next(s, m), r, compared)
  {
    NextAttempts(s, m, r);
    var s' := Next(s, m);
    forall t: int, n: nat ensures Holds(s', t, r, n) <==> Holds(s, t, r, n) && !(Access(s, m).Some? && m.thread == t) {
      NextHolds(s, m, t, r, n);
    }
    if Access(s, m).Some? && Access(s, m).value.WriteAttempts? && Access(s, m).value.ref == r {
      WritesWhatItHolds(s, m, r);
      assert forall t: int, n: nat :: !Holds(s', t, r, n) by { hide Next, Holds, Lone; }
    } else {
      forall t: int, n: nat | Holds(s, t, r, n) ensures Holds(s', t, r, n) {
      }
    }
    hide Next, Holds, Lone, Compares, Access;
  }

  // ---- Runs -------------------------------------------------------------------------------------------

  /** What is about to be written respects the ceiling. */
  ghost predicate HoldsWithinCeiling(s: System, r: string) {
    forall t: int, n: nat | Holds(s, t, r, n) :: n <= MAX_CODE_ATTEMPTS
  }

  lemma NextHoldsWithinCeiling(s: System, m: Move, r: string)
    requires Lone(s) && HoldsWithinCeiling(s, r)
    ensures HoldsWithinCeiling(Next(s, m), r)
  {
    forall t: int, n: nat | Holds(Next(s, m), t, r, n) ensures n <= MAX_CODE_ATTEMPTS {
      NextHolds(s, m, t, r, n);
      hide Next, Holds, Lone;
    }
  }

  /** All that runs keep: exact as long as nothing overlapped, behind from then on. */
  ghost predicate Counted(s: System, r: string, compared: int, overlapped: bool) {
    && Lone(s) && HoldsWithinCeiling(s, r)
    && if overlapped then Behind(s, r, compared) else Exact(s, r, compared)
  }

  lemma NextIsCounted(s: System, m: Move, r: string, compared: int, overlapped: bool)
    requires Counted(s, r, compared, overlapped)
    ensures Counted(Next(s, m), r, compared + One(Compares(s, m, r)), overlapped || Overlaps(s, m, r))
  {
    NextIsLone(s, m);
    NextHoldsWithinCeiling(s, m, r);
    if overlapped {
      NextBehind(s, m, r, compared);
    } else if Overlaps(s, m, r) {
      NextFallsBehind(s, m, r, compared);
    } else if Compares(s, m, r) {
      NextComparesExactly(s, m, r, compared);
    } else {
      NextCountsExactly(s, m, r, compared);
    }
    hide Next, Lone, HoldsWithinCeiling, Behind, Exact, Compares, Pends;
  }

  lemma OverlapsSoFar(s: System, moves: seq<Move>, r: string)
    requires moves != []
    ensures var n := |moves| - 1;
            NeverOverlaps(s, moves, r) <==>
              NeverOverlaps(s, moves[..n], r) && !Overlaps(RunSystem(s, moves[..n]), moves[n], r)
  {
    hide RunSystem, Overlaps, Next, Exec;
    var n := |moves| - 1;
    forall k | 0 <= k < n ensures moves[..n][..k] == moves[..k] && moves[..n][k] == moves[k] {
    }
  }

  lemma {:induction false} RunIsCounted(s: System, moves: seq<Move>, r: string, compared: int)
    requires Counted(s, r, compared, false)
    ensures Counted(RunSystem(s, moves), r, compared + WrongCodesInterleaved(s, moves, r), !NeverOverlaps(s, moves, r))
    ensures NeverOverlaps(s, moves, r) && WrongCodesInterleaved(s, moves, r) > 0 ==>
              compared + WrongCodesInterleaved(s, moves, r) <= MAX_CODE_ATTEMPTS
  {
    hide Counted, Next, Overlaps, Compares;
    if moves == [] {
    } else {
      var n := |moves| - 1;
      var init, before := moves[..n], RunSystem(s, moves[..n]);
      var sofar := compared + WrongCodesInterleaved(s, init, r);
      RunIsCounted(s, init, r, compared);
      OverlapsSoFar(s, moves, r);
      NextIsCounted(before, moves[n], r, sofar, !NeverOverlaps(s, init, r));
      if NeverOverlaps(s, moves, r) && Compares(before, moves[n], r) {
        ComparedBelowCeiling(before, moves[n], r, sofar);
      }
      hide NeverOverlaps;
    }
  }

  lemma ComparedBelowCeiling(s: System, m: Move, r: string, compared: int)
    requires Counted(s, r, compared, false) && Compares(s, m, r) && !Overlaps(s, m, r)
    ensures compared < MAX_CODE_ATTEMPTS
  {
    PendsIff(s, r);
    hide Lone, HoldsWithinCeiling, Holds, Pends;
  }

  lemma StartIsCounted(b: Base, r: string)
    requires r in b.deliveries
    ensures Counted(Initial(b), r, b.deliveries[r].attempts, false)
  {
  }

  /**
   Main result: once nothing is left to write, the attempts recorded are the wrong codes compared if and only if
   none was compared while another was not counted yet.
   */
  lemma CountedExactlyIff(b: Base, moves: seq<Move>, r: string)
    requires r in b.deliveries && !Pends(RunSystem(Initial(b), moves), r)
    ensures var s := RunSystem(Initial(b), moves);
            && r in s.base.deliveries
            && (s.base.deliveries[r].attempts == b.deliveries[r].attempts + WrongCodesInterleaved(Initial(b), moves, r)
                <==> NeverOverlaps(Initial(b), moves, r))
  {
    hide RunSystem, Pends, NeverOverlaps, WrongCodesInterleaved, Counted;
    var s, start := RunSystem(Initial(b), moves), b.deliveries[r].attempts;
    StartIsCounted(b, r);
    RunIsCounted(Initial(b), moves, r, start);
    var compared := start + WrongCodesInterleaved(Initial(b), moves, r);
    CountWhenNothingPends(s, r, compared, !NeverOverlaps(Initial(b), moves, r));
  }

  lemma CountWhenNothingPends(s: System, r: string, compared: int, overlapped: bool)
    requires Counted(s, r, compared, overlapped) && !Pends(s, r)
    ensures r in s.base.deliveries && (s.base.deliveries[r].attempts == compared <==> !overlapped)
  {
    PendsIff(s, r);
    hide Lone, HoldsWithinCeiling, Holds, Pends;
  }

  /** What the ceiling is for: the attempts at the start and the wrong codes compared since stay within it. */
  predicate WithinCeiling(b: Base, moves: seq<Move>, r: string)
    requires r in b.deliveries
  {
    var n := WrongCodesInterleaved(Initial(b), moves, r);
    n > 0 ==> b.deliveries[r].attempts + n <= 5
  }

  /** Without overlap the ceiling holds, whatever other handlers interleave. */
  lemma CeilingHolds(b: Base, moves: seq<Move>, r: string)
    requires r in b.deliveries && NeverOverlaps(Initial(b), moves, r)
    ensures WithinCeiling(b, moves, r)
  {
    StartIsCounted(b, r);
    RunIsCounted(Initial(b), moves, r, b.deliveries[r].attempts);
  }

  // ---- After an overlap the ceiling can be passed -----------------------------------------------------

  /** The event's code is wrong, and nothing but the ceiling can keep it from being compared. */
  predicate StaysWrong(b: Base, e: Event, r: string) {
    && e.CodeEntered? && e.numero == r && HasDelivery(b, r) && e.code != "" && e.apiKey != ""
    && !TerminalOrder(b.orders[r].status) && b.orders[r].apiKey == e.apiKey
    && !b.deliveries[r].statut.Delivered? && b.deliveries[r].pin != e.code
  }

  lemma WrongIff(b: Base, e: Event, r: string)
    ensures ComparesWrong(b, e, r) <==> StaysWrong(b, e, r) && b.deliveries[r].attempts < MAX_CODE_ATTEMPTS
  {
  }

  lemma {:induction false} WrongCodesConcat(s: System, p: seq<Move>, q: seq<Move>, r: string)
    ensures WrongCodesInterleaved(s, p + q, r) == WrongCodesInterleaved(s, p, r)
             + WrongCodesInterleaved(RunSystem(s, p), q, r)
    decreases |q|
  {
    hide Compares;
    if q == [] {
      assert p + q == p;
    } else {
      var n := |q| - 1;
      WrongCodesConcat(s, p, q[..n], r);
      assert (p + q)[..|p + q| - 1] == p + q[..n];
      RunConcat(s, p, q[..n]);
      hide RunSystem;
    }
  }

  lemma NeverOverlapsConcat(s: System, p: seq<Move>, q: seq<Move>, r: string)
    requires NeverOverlaps(s, p, r) && NeverOverlaps(RunSystem(s, p), q, r)
    ensures NeverOverlaps(s, p + q, r)
  {
    hide RunSystem, Overlaps;
    forall k | 0 <= k < |p + q| ensures !Overlaps(RunSystem(s, (p + q)[..k]), (p + q)[k], r) {
      if k < |p| {
        assert (p + q)[..k] == p[..k] && (p + q)[k] == p[k];
      } else {
        assert (p + q)[..k] == p + q[..k - |p|] && (p + q)[k] == q[k - |p|];
        RunConcat(s, p, q[..k - |p|]);
      }
    }
  }

  lemma OneMove(s: System, m: Move, r: string)
    ensures RunSystem(s, [m]) == Next(s, m)
    ensures WrongCodesInterleaved(s, [m], r) == One(Compares(s, m, r))
    ensures NeverOverlaps(s, [m], r) <==> !Overlaps(s, m, r)
  {
    assert [m][..0] == [];
    assert RunSystem(s, []) == s;
    hide Next, Overlaps, Compares;
  }

  /** Moves without overlap from `s` to `s'` that compare `n` wrong codes. */
  ghost predicate LeadsTo(s: System, moves: seq<Move>, r: string, n: nat, s': System) {
    RunSystem(s, moves) == s' && NeverOverlaps(s, moves, r) && WrongCodesInterleaved(s, moves, r) == n
  }

  lemma ThenMove(s: System, moves: seq<Move>, r: string, n: nat, s': System, m: Move) returns (longer: seq<Move>)
    requires LeadsTo(s, moves, r, n, s') && !Overlaps(s', m, r)
    ensures LeadsTo(s, longer, r, n + One(Compares(s', m, r)), Next(s', m))
  {
    longer := moves + [m];
    OneMove(s', m, r);
    RunConcat(s, moves, [m]);
    WrongCodesConcat(s, moves, [m], r);
    NeverOverlapsConcat(s, moves, [m], r);
    hide RunSystem, NeverOverlaps, WrongCodesInterleaved, Next, Overlaps, Compares;
  }

  lemma ThenMoves(s: System, p: seq<Move>, r: string, n: nat, s': System, q: seq<Move>, k: nat, s'': System)
    requires LeadsTo(s, p, r, n, s') && LeadsTo(s', q, r, k, s'')
    ensures LeadsTo(s, p + q, r, n + k, s'')
  {
    RunConcat(s, p, q);
    WrongCodesConcat(s, p, q, r);
    NeverOverlapsConcat(s, p, q, r);
    hide RunSystem, NeverOverlaps, WrongCodesInterleaved;
  }

  lemma NoMove(s: System, r: string)
    ensures LeadsTo(s, [], r, 0, s)
  {
  }

  /** Another wrong code could be compared here, if the ceiling allows it. */
  ghost predicate Open(s: System, e: Event, r: string) {
    && Lone(s) && StaysWrong(s.base, e, r) && s.base.deliveries[r].attempts <= MAX_CODE_ATTEMPTS
    && HoldsWithinCeiling(s, r)
  }

  lemma WritingKeepsOpen(s: System, t: nat, e: Event, r: string, n: nat)
    requires Open(s, e, r) && Holds(s, t, r, n)
    ensures Open(Next(s, Turn(t)), e, r) && !Compares(s, Turn(t), r)
    ensures Next(s, Turn(t)).threads == s.threads[t := []]
    ensures Next(s, Turn(t)).base.deliveries[r].attempts == n
  {
    NextIsLone(s, Turn(t));
    NextHoldsWithinCeiling(s, Turn(t), r);
    assert [] + s.threads[t][1..] == [];
    hide Lone, HoldsWithinCeiling;
  }

  /** The counts still to be written, by the threads from `t` on, are written one after another. */
  lemma {:induction false} Flush(s: System, t: nat, e: Event, r: string) returns (moves: seq<Move>, s': System)
    requires Open(s, e, r) && t <= |s.threads|
    requires forall t': int, n: nat | 0 <= t' < t :: !Holds(s, t', r, n)
    ensures LeadsTo(s, moves, r, 0, s') && Open(s', e, r) && forall t': int, n: nat :: !Holds(s', t', r, n)
    decreases |s.threads| - t
  {
    NoMove(s, r);
    hide Open, LeadsTo;
    if t == |s.threads| {
      moves, s' := [], s;
    } else if n: nat :| Holds(s, t, r, n) {
      WritingKeepsOpen(s, t, e, r, n);
      var m, s1 := Turn(t), Next(s, Turn(t));
      var one := ThenMove(s, [], r, 0, s, m);
      var rest;
      forall t': int, k: nat | 0 <= t' < t + 1 ensures !Holds(s1, t', r, k) {
        assert t' == t || s1.threads[t'] == s.threads[t'];
        assert t' == t || !Holds(s, t', r, k);
      }
      rest, s' := Flush(s1, t + 1, e, r);
      ThenMoves(s, one, r, 0, s1, rest, 0, s');
      moves := one + rest;
    } else {
      moves, s' := Flush(s, t + 1, e, r);
    }
  }

  /** One more wrong code, compared and counted. */
  lemma GuessOnce(s: System, e: Event, r: string) returns (moves: seq<Move>, s': System)
    requires Open(s, e, r) && (forall t: int, n: nat :: !Holds(s, t, r, n))
              && s.base.deliveries[r].attempts < MAX_CODE_ATTEMPTS
    ensures LeadsTo(s, moves, r, 1, s') && Open(s', e, r) && forall t: int, n: nat :: !Holds(s', t, r, n)
    ensures s'.base.deliveries[r].attempts == s.base.deliveries[r].attempts + 1
  {
    var t, n := |s.threads|, s.base.deliveries[r].attempts + 1;
    NoMove(s, r);
    PendsIff(s, r);
    WrongIff(s.base, e, r);
    var s1 := Next(s, Arrive(e));
    assert !Compares(s, Arrive(e), r) && s1.base == s.base && s1.threads == s.threads + [[Start(e)]];
    NextIsLone(s, Arrive(e));
    forall t': int, n': nat ensures !Holds(s1, t', r, n') { NextHolds(s, Arrive(e), t', r, n'); }
    PendsIff(s1, r);
    assert Compares(s1, Turn(t), r);
    var s2 := Next(s1, Turn(t));
    NextIsLone(s1, Turn(t));
    ExecOnAttempts(s1.base, Start(e), r);
    assert s2.base == s.base;
    forall t': int, n': nat ensures Holds(s2, t', r, n') <==> t' == t && n' == n { NextHolds(s1, Turn(t), t', r, n'); }
    assert Open(s2, e, r);
    WritingKeepsOpen(s2, t, e, r, n);
    NextIsLone(s2, Turn(t));
    s' := Next(s2, Turn(t));
    forall t': int, n': nat ensures !Holds(s', t', r, n') { NextHolds(s2, Turn(t), t', r, n'); }
    hide Next, Open, LeadsTo, Lone, Pends, Holds, Compares;
    moves := ThenMove(s, [], r, 0, s, Arrive(e));
    moves := ThenMove(s, moves, r, 0, s1, Turn(t));
    moves := ThenMove(s, moves, r, 1, s2, Turn(t));
  }

  /** Wrong codes one after another, up to the ceiling of the count. */
  lemma {:induction false} GuessOn(s: System, e: Event, r: string) returns (moves: seq<Move>)
    requires Open(s, e, r) && forall t: int, n: nat :: !Holds(s, t, r, n)
    ensures NeverOverlaps(s, moves, r)
    ensures WrongCodesInterleaved(s, moves, r) == MAX_CODE_ATTEMPTS - s.base.deliveries[r].attempts
    decreases MAX_CODE_ATTEMPTS - s.base.deliveries[r].attempts
  {
    if s.base.deliveries[r].attempts == MAX_CODE_ATTEMPTS {
      moves := [];
    } else {
      var one, s1 := GuessOnce(s, e, r);
      var rest := GuessOn(s1, e, r);
      hide NeverOverlaps, RunSystem, WrongCodesInterleaved;
      WrongCodesConcat(s, one, rest, r);
      NeverOverlapsConcat(s, one, rest, r);
      moves := one + rest;
    }
  }

  lemma OverlapLeavesOpen(s: System, m: Move, r: string, compared: int, overlapped: bool)
    requires Counted(s, r, compared, overlapped) && Overlaps(s, m, r)
    ensures Counted(Next(s, m), r, compared + 1, true) && Open(Next(s, m), Access(s, m).value.event, r)
  {
    NextIsCounted(s, m, r, compared, overlapped);
    ExecOnAttempts(s.base, Access(s, m).value, r);
    WrongIff(s.base, Access(s, m).value.event, r);
    hide Exec, ComparesWrong, StaysWrong, Pends, Lone, HoldsWithinCeiling, Holds;
  }

  lemma BehindMeansLess(s: System, r: string, compared: int)
    requires Counted(s, r, compared, true)
    ensures r in s.base.deliveries && s.base.deliveries[r].attempts < compared
  {
    hide Lone, HoldsWithinCeiling, Holds;
  }

  lemma OverlapPassesCeiling(s: System, m: Move, r: string, compared: int, overlapped: bool) returns (more: seq<Move>)
    requires Counted(s, r, compared, overlapped) && Overlaps(s, m, r)
    ensures NeverOverlaps(Next(s, m), more, r)
    ensures compared + 1 + WrongCodesInterleaved(Next(s, m), more, r) > MAX_CODE_ATTEMPTS
  {
    var e, s1 := Access(s, m).value.event, Next(s, m);
    hide Next, RunSystem, NeverOverlaps, WrongCodesInterleaved, Holds, Overlaps, Counted, Open, Access;
    OverlapLeavesOpen(s, m, r, compared, overlapped);
    var flush, s2 := Flush(s1, 0, e, r);
    StaysBehind(s1, flush, r, compared + 1);
    BehindMeansLess(s2, r, compared + 1);
    var guess := GuessOn(s2, e, r);
    WrongCodesConcat(s1, flush, guess, r);
    NeverOverlapsConcat(s1, flush, guess, r);
    more := flush + guess;
  }

  lemma {:induction false} StaysBehind(s: System, moves: seq<Move>, r: string, compared: int)
    requires Counted(s, r, compared, true)
    ensures Counted(RunSystem(s, moves), r, compared + WrongCodesInterleaved(s, moves, r), true)
  {
    hide Counted, Next, Overlaps, Compares;
    if moves != [] {
      var n := |moves| - 1;
      StaysBehind(s, moves[..n], r, compared);
      NextIsCounted(RunSystem(s, moves[..n]), moves[n], r, compared + WrongCodesInterleaved(s, moves[..n], r), true);
    }
  }

  /**
   Main result: at every point of a history, whatever follows without a further overlap respects the ceiling, if and
   only if the history itself never overlaps.
   */
  lemma CeilingIff(b: Base, moves: seq<Move>, r: string)
    requires r in b.deliveries
    ensures (forall i, more | 0 <= i <= |moves| && NeverOverlaps(RunSystem(Initial(b), moves[..i]), more, r) ::
               WithinCeiling(b, moves[..i] + more, r))
       <==> NeverOverlaps(Initial(b), moves, r)
  {
    var s := Initial(b);
    hide RunSystem, Overlaps, WrongCodesInterleaved;
    if NeverOverlaps(s, moves, r) {
      forall i, more | 0 <= i <= |moves| && NeverOverlaps(RunSystem(s, moves[..i]), more, r)
        ensures WithinCeiling(b, moves[..i] + more, r)
      {
        assert forall k | 0 <= k < i :: moves[..i][..k] == moves[..k] && moves[..i][k] == moves[k];
        NeverOverlapsConcat(s, moves[..i], more, r);
        CeilingHolds(b, moves[..i] + more, r);
      }
    } else {
      var k :| 0 <= k < |moves| && Overlaps(RunSystem(s, moves[..k]), moves[k], r);
      var more := OverlapIsFatal(b, moves, k, r);
      assert !WithinCeiling(b, moves[..k + 1] + more, r);
    }
  }

  lemma OverlapIsFatal(b: Base, moves: seq<Move>, k: nat, r: string) returns (more: seq<Move>)
    requires r in b.deliveries && k < |moves| && Overlaps(RunSystem(Initial(b), moves[..k]), moves[k], r)
    ensures NeverOverlaps(RunSystem(Initial(b), moves[..k + 1]), more, r)
    ensures !WithinCeiling(b, moves[..k + 1] + more, r)
  {
    hide RunSystem, WrongCodesInterleaved, Counted, Next, Exec, NeverOverlaps, Pends, ComparesWrong;
    var s, start := RunSystem(Initial(b), moves[..k]), b.deliveries[r].attempts;
    StartIsCounted(b, r);
    RunIsCounted(Initial(b), moves[..k], r, start);
    assert moves[..k + 1] == moves[..k] + [moves[k]];
    OneMove(s, moves[k], r);
    RunConcat(Initial(b), moves[..k], [moves[k]]);
    WrongCodesConcat(Initial(b), moves[..k], [moves[k]], r);
    var sofar := start + WrongCodesInterleaved(Initial(b), moves[..k], r);
    more := OverlapPassesCeiling(s, moves[k], r, sofar, !NeverOverlaps(Initial(b), moves[..k], r));
    WrongCodesConcat(Initial(b), moves[..k + 1], more, r);
  }

  // ---- The witness ------------------------------------------------------------------------------------

  /** Main result: any sequence of wrong codes, however long, can be compared before the first of them is counted. */
  lemma {:induction false} AnyWrongCodesCompared(b: Base, es: seq<Event>, r: string) returns (moves: seq<Move>)
    requires r in b.deliveries && forall e | e in es :: ComparesWrong(b, e, r)
    ensures WrongCodesInterleaved(Initial(b), moves, r) == |es|
    ensures forall e | e in es :: Arrive(e) in moves
    ensures var s := RunSystem(Initial(b), moves);
            && s.base == b && |s.threads| == |es|
            && forall t | 0 <= t < |es| :: s.threads[t] == [WriteAttempts(r, b.deliveries[r].attempts + 1)]
  {
    if es == [] {
      moves := [];
    } else {
      var n := |es| - 1;
      var e := es[n];
      var before := AnyWrongCodesCompared(b, es[..n], r);
      assert es == es[..n] + [e] && e in es;
      var more := OneMoreWrongCode(b, before, e, r, n);
      moves := before + more;
      assert forall x | x in es[..n] :: Arrive(x) in moves;
    }
  }

  lemma OneMoreWrongCode(b: Base, before: seq<Move>, e: Event, r: string, n: nat) returns (more: seq<Move>)
    requires r in b.deliveries && ComparesWrong(b, e, r)
    requires RunSystem(Initial(b), before).base == b && |RunSystem(Initial(b), before).threads| == n
    ensures more == [Arrive(e), Turn(n)]
    ensures WrongCodesInterleaved(Initial(b), before + more, r) == WrongCodesInterleaved(Initial(b), before, r) + 1
    ensures var s := RunSystem(Initial(b), before + more);
            && s.base == b
            && s.threads == RunSystem(Initial(b), before).threads + [[WriteAttempts(r, b.deliveries[r].attempts + 1)]]
  {
    var arrived := ThenArrive(Initial(b), before, e);
    assert arrived[..|before|] == before;
    var s := RunSystem(Initial(b), arrived);
    assert !Compares(RunSystem(Initial(b), before), Arrive(e), r);
    assert WrongCodesInterleaved(Initial(b), arrived, r) == WrongCodesInterleaved(Initial(b), before, r);
    assert s.threads[n] == [Start(e)] + [];
    more := [Arrive(e), Turn(n)];
    var moves := ThenTurn(Initial(b), arrived, n, Start(e), []);
    assert moves == before + more && moves[..|arrived|] == arrived;
    PlanOfAttempts(b, e);
    hide RunSystem, Plan, ComparesWrong;
    assert Compares(s, Turn(n), r);
    assert Exec(b, Start(e)).1 + [] == Exec(b, Start(e)).1;
  }
}
