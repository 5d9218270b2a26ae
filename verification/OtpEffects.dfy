/** What one OTP verification does, spelled out, and what a success gives back. */
module OtpEffects {
  import opened Wrappers
  import opened Otp

  /** Fifteen minutes, for the window and for the lock. */
  const QUARTER := 900_000

  /**
   Main result: a phone is refused exactly while its lock runs, nothing changes, and the minutes left are rounded
   up.
   */
  lemma LockedIff(rows: map<string, Attempt>, phone: string, now: int, lookup: Lookup)
    ensures var (rows', r) := Verify(rows, phone, now, lookup);
            && (r.Locked? <==> phone in rows && rows[phone].lockedUntil.Some? && now < rows[phone].lockedUntil.value)
            && (r.Locked? ==>
                  && rows' == rows
                  && (r.minutes - 1) * 60_000 < rows[phone].lockedUntil.value - now <= r.minutes * 60_000)
  {
  }

  /** Otherwise the answer is the database's: wrong without a token, unknown without a customer, else verified. */
  lemma AnswerIs(rows: map<string, Attempt>, phone: string, now: int, lookup: Lookup)
    requires !Verify(rows, phone, now, lookup).1.Locked?
    ensures Verify(rows, phone, now, lookup).1 ==
              match lookup
              case NoToken => InvalidCode
              case Token(_, customer) => if customer then Verified else NoCustomer
  {
  }

  /** A phone's row once its expired lock, if any, is lifted: counted from zero, in a window that opens now. */
  function Lifted(a: Attempt, now: int): Attempt {
    if a.lockedUntil.Some? then Attempt(0, now, None) else a
  }

  /** Every other phone's row is what it was. */
  ghost predicate OthersStay(rows: map<string, Attempt>, rows': map<string, Attempt>, but: set<string>) {
    forall p | p !in but :: (p in rows' <==> p in rows) && (p in rows ==> rows'[p] == rows[p])
  }

  /** Main result: a success forgets the failures of the phone the code was sent to, and lifts an expired lock. */
  lemma SuccessForgets(rows: map<string, Attempt>, phone: string, now: int, lookup: Lookup)
    requires Verify(rows, phone, now, lookup).1.Verified?
    ensures var rows' := Verify(rows, phone, now, lookup).0;
            && lookup.Token? && lookup.phone !in rows'
            && OthersStay(rows, rows', {phone, lookup.phone})
            && (phone != lookup.phone ==>
                  && (phone in rows' <==> phone in rows)
                  && (phone in rows ==> rows'[phone] == Lifted(rows[phone], now)))
  {
  }

  /**
   Main result: a wrong code adds one to the phone's count, or starts a new window of 15 minutes; the fifth locks
   for 15.
   */
  lemma FailureCounts(rows: map<string, Attempt>, phone: string, now: int, lookup: Lookup)
    requires Verify(rows, phone, now, lookup).1.InvalidCode?
    ensures var rows' := Verify(rows, phone, now, lookup).0;
            && lookup.NoToken? && OthersStay(rows, rows', {phone}) && phone in rows'
            && var was := if phone in rows then Lifted(rows[phone], now) else Attempt(0, now, None);
               if now - was.windowStart > QUARTER then rows'[phone] == Attempt(1, now, None)
               else rows'[phone] == Attempt(was.failedCount + 1, was.windowStart,
                                            if was.failedCount >= 4 then Some(now + QUARTER) else None)
  {
  }

  /** A right code without customer only lifts an expired lock. */
  lemma NoCustomerLifts(rows: map<string, Attempt>, phone: string, now: int, lookup: Lookup)
    requires Verify(rows, phone, now, lookup).1.NoCustomer?
    ensures var rows' := Verify(rows, phone, now, lookup).0;
            && OthersStay(rows, rows', {phone})
            && (phone in rows' <==> phone in rows)
            && (phone in rows ==> rows'[phone] == Lifted(rows[phone], now))
  {
  }

  // ---- After a success --------------------------------------------------------------------------------

  /** Wrong codes compared for a phone since call `i`. */
  function WrongSince(calls: seq<Call>, phone: string, i: nat): nat {
    if |calls| <= i + 1 then 0
    else
      var init, last := calls[..|calls| - 1], calls[|calls| - 1];
      WrongSince(init, phone, i) + if ComparedWrong(RowsAfter(init), last, phone) then 1 else 0
  }

  /** The row holds no more than these wrong codes, and a lock is worth five. */
  predicate Fair(rows: map<string, Attempt>, phone: string, n: nat) {
    phone in rows ==> rows[phone].failedCount <= n && (rows[phone].lockedUntil.Some? ==> n >= 5)
  }

  lemma CallIsFair(rows: map<string, Attempt>, c: Call, phone: string, n: nat)
    requires Fair(rows, phone, n)
    ensures Fair(Verify(rows, c.phone, c.now, c.lookup).0, phone, n + if ComparedWrong(rows, c, phone) then 1 else 0)
  {
  }

  lemma {:induction false} FairSince(calls: seq<Call>, phone: string, i: nat)
    requires i < |calls| && calls[i].lookup.Token? && calls[i].lookup.phone == phone
    requires Verify(RowsAfter(calls[..i]), calls[i].phone, calls[i].now, calls[i].lookup).1.Verified?
    ensures Fair(RowsAfter(calls), phone, WrongSince(calls, phone, i))
    decreases |calls|
  {
    var k := |calls| - 1;
    if i == k {
      SuccessForgets(RowsAfter(calls[..i]), calls[i].phone, calls[i].now, calls[i].lookup);
    } else {
      assert calls[..k][..i] == calls[..i];
      FairSince(calls[..k], phone, i);
      CallIsFair(RowsAfter(calls[..k]), calls[k], phone, WrongSince(calls[..k], phone, i));
    }
    hide Verify, Fair, ComparedWrong;
  }

  /** Main result: after a success for a phone, it is not refused until five more wrong codes were compared for it. */
  lemma FiveMoreToLock(calls: seq<Call>, phone: string, i: nat, now: int, lookup: Lookup)
    requires i < |calls| && calls[i].lookup.Token? && calls[i].lookup.phone == phone
    requires Verify(RowsAfter(calls[..i]), calls[i].phone, calls[i].now, calls[i].lookup).1.Verified?
    requires Verify(RowsAfter(calls), phone, now, lookup).1.Locked?
    ensures WrongSince(calls, phone, i) >= 5
  {
    FairSince(calls, phone, i);
    LockedIff(RowsAfter(calls), phone, now, lookup);
    hide Verify, RowsAfter;
  }

  // ---- Five in a window lock for fifteen minutes --------------------------------------------------------

  lemma {:induction false} CountsUp(calls: seq<Call>, wrong: seq<Call>, phone: string)
    requires phone !in RowsAfter(calls) && 0 < |wrong| <= 5
    requires forall i | 0 <= i < |wrong| ::
               wrong[i].phone == phone && wrong[i].lookup.NoToken? && 0 <= wrong[i].now - wrong[0].now <= QUARTER
    ensures phone in RowsAfter(calls + wrong)
    ensures RowsAfter(calls + wrong)[phone] ==
              Attempt(|wrong|, wrong[0].now, if |wrong| == 5 then Some(wrong[4].now + QUARTER) else None)
  {
    var k := |wrong| - 1;
    assert (calls + wrong)[..|calls + wrong| - 1] == calls + wrong[..k];
    if k > 0 {
      CountsUp(calls, wrong[..k], phone);
    } else {
      assert calls + wrong[..k] == calls;
    }
  }

  /**
   Main result: five wrong codes within 15 minutes refuse the phone for the 15 minutes after the fifth, and no
   longer.
   */
  lemma FiveLockForFifteenMinutes(calls: seq<Call>, wrong: seq<Call>, phone: string, now: int, lookup: Lookup)
    requires phone !in RowsAfter(calls) && |wrong| == 5
    requires forall i | 0 <= i < 5 ::
               wrong[i].phone == phone && wrong[i].lookup.NoToken? && 0 <= wrong[i].now - wrong[0].now <= QUARTER
    ensures Verify(RowsAfter(calls + wrong), phone, now, lookup).1.Locked? <==> now < wrong[4].now + QUARTER
  {
    CountsUp(calls, wrong, phone);
    LockedIff(RowsAfter(calls + wrong), phone, now, lookup);
    hide RowsAfter, Verify;
  }
}
