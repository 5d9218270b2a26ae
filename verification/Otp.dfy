/**
 OTP verification with a lock (src/modules/auth/services/auth.service.ts). Times are milliseconds;
 each call reads the clock once. The attempt row is keyed by the phone as typed, while a success
 clears the row of the phone stored with the code, which may be the other spelling.
 */
module Otp {
  import opened Wrappers

  const MAX_ATTEMPTS := 5
  const WINDOW_MS := 15 * 60 * 1000
  const LOCKOUT_MS := 15 * 60 * 1000

  datatype Attempt = Attempt(failedCount: nat, windowStart: int, lockedUntil: Option<int>)

  /** What the database says of the code: unknown, or stored under `phone` with or without a customer. */
  datatype Lookup = NoToken | Token(phone: string, hasCustomer: bool)

  datatype Result = Locked(minutes: int) | InvalidCode | NoCustomer | Verified

  // ---- One row -----------------------------------------------------------------------

  predicate IsLocked(row: Option<Attempt>, now: int) {
    row.Some? && row.value.lockedUntil.Some? && row.value.lockedUntil.value > now
  }

  /** The row once `assertOtpNotLocked` has let the call through: an expired lock is purged. */
  function Purged(row: Option<Attempt>, now: int): Option<Attempt> {
    if row.Some? && row.value.lockedUntil.Some? then Some(Attempt(0, now, None)) else row
  }

  function AfterFailure(row: Option<Attempt>, now: int): Attempt {
    match row
    case None => Attempt(1, now, None)
    case Some(a) =>
      var expired := now - a.windowStart > WINDOW_MS;
      var next := if expired then 1 else a.failedCount + 1;
      Attempt(next, if expired then now else a.windowStart,
              if next >= MAX_ATTEMPTS then Some(now + LOCKOUT_MS) else a.lockedUntil)
  }

  // ---- The service ---------------------------------------------------------------------

  function Verify(rows: map<string, Attempt>, phone: string, now: int, lookup: Lookup): (map<string, Attempt>, Result) {
    var row := if phone in rows then Some(rows[phone]) else None;
    if IsLocked(row, now) then (rows, Locked((row.value.lockedUntil.value - now + 59999) / 60000))
    else
      var purged := Purged(row, now);
      var rows' := if purged.Some? then rows[phone := purged.value] else rows;
      match lookup
      case NoToken => (rows'[phone := AfterFailure(purged, now)], InvalidCode)
      case Token(stored, false) => (rows', NoCustomer)
      case Token(stored, true) => (rows' - {stored}, Verified)
  }

  class OtpService {
    var attempts: map<string, Attempt>

    constructor ()
      ensures attempts == map[]
    {
      attempts := map[];
    }

    method AssertNotLocked(phone: string, now: int) returns (minutes: Option<int>)
      modifies this
      ensures var row := if phone in old(attempts) then Some(old(attempts)[phone]) else None;
              if IsLocked(row, now) then
                attempts == old(attempts) && minutes == Some((row.value.lockedUntil.value - now + 59999) / 60000)
              else
                && minutes == None
                && attempts ==
                     match Purged(row, now) case None => old(attempts) case Some(a) => old(attempts)[phone := a]
    {
      if phone !in attempts || attempts[phone].lockedUntil == None {
        assert phone in attempts ==> attempts == attempts[phone := attempts[phone]];
        return None;
      }
      var remaining := attempts[phone].lockedUntil.value - now;
      if remaining > 0 {
        return Some((remaining + 59999) / 60000);
      }
      attempts := attempts[phone := Attempt(0, now, None)];
      return None;
    }

    method RegisterFailure(phone: string, now: int)
      modifies this
      ensures attempts == old(attempts)[phone := AfterFailure(if phone in old(attempts) then Some(old(attempts)[phone])
               else None, now)]
    {
      if phone !in attempts {
        attempts := attempts[phone := Attempt(1, now, None)];
        return;
      }
      var existing := attempts[phone];
      var windowExpired := now - existing.windowStart > WINDOW_MS;
      var nextCount := if windowExpired then 1 else existing.failedCount + 1;
      var reachedCap := nextCount >= MAX_ATTEMPTS;
      attempts := attempts[phone := Attempt(
        nextCount,
        if windowExpired then now else existing.windowStart,
        if reachedCap then Some(now + LOCKOUT_MS) else existing.lockedUntil)];
    }

    method VerifyOtp(phone: string, now: int, lookup: Lookup) returns (r: Result)
      modifies this
      ensures (attempts, r) == Verify(old(attempts), phone, now, lookup)
    {
      var minutes := AssertNotLocked(phone, now);
      if minutes.Some? { return Locked(minutes.value); }
      match lookup {
        case NoToken =>
          RegisterFailure(phone, now);
          return InvalidCode;
        case Token(stored, hasCustomer) =>
          if !hasCustomer { return NoCustomer; }
          attempts := attempts - {stored};
          return Verified;
      }
    }
  }

  // ---- Runs ------------------------------------------------------------------------------

  datatype Call = Call(phone: string, now: int, lookup: Lookup)

  function RowsAfter(calls: seq<Call>): map<string, Attempt> {
    if calls == [] then map[]
    else
      var last := calls[|calls| - 1];
      Verify(RowsAfter(calls[..|calls| - 1]), last.phone, last.now, last.lookup).0
  }

  predicate Chronological(calls: seq<Call>) {
    forall i, j | 0 <= i < j < |calls| :: calls[i].now <= calls[j].now
  }

  /** The call is a wrong code for this phone which was actually compared. */
  predicate ComparedWrong(rows: map<string, Attempt>, c: Call, phone: string) {
    c.phone == phone && Verify(rows, c.phone, c.now, c.lookup).1.InvalidCode?
  }

  /** The call clears this phone's row by a successful verification. */
  predicate Clears(rows: map<string, Attempt>, c: Call, phone: string) {
    Verify(rows, c.phone, c.now, c.lookup).1.Verified? && c.lookup.phone == phone
  }

  /** The call lets a right code through for this phone, purges its expired lock and leaves the row behind, empty. */
  predicate LeavesEmptyRow(rows: map<string, Attempt>, c: Call, phone: string) {
    && c.phone == phone && c.lookup.Token?
    && phone in rows && rows[phone].lockedUntil.Some? && rows[phone].lockedUntil.value <= c.now
    && !Clears(rows, c, phone)
  }

  /** Wrong codes compared for a phone during [from, from + 15 min). */
  function WrongDuring(calls: seq<Call>, phone: string, from: int): nat {
    if calls == [] then 0
    else
      var init, last := calls[..|calls| - 1], calls[|calls| - 1];
      WrongDuring(init, phone, from)
      + if from <= last.now < from + WINDOW_MS && ComparedWrong(RowsAfter(init), last, phone) then 1 else 0
  }

  ghost predicate NoSuccessDuring(calls: seq<Call>, phone: string, from: int) {
    forall i | 0 <= i < |calls| && from <= calls[i].now < from + WINDOW_MS ::
        !Clears(RowsAfter(calls[..i]), calls[i], phone)
  }

  ghost predicate NeverLeavesEmptyRow(calls: seq<Call>, phone: string) {
    forall i | 0 <= i < |calls| :: !LeavesEmptyRow(RowsAfter(calls[..i]), calls[i], phone)
  }

  // ---- The rate bound ----------------------------------------------------------------------

  /** What a row looks like between calls, the last one made at `last`; `floor` is 1 unless empty rows occur. */
  predicate Sound(row: Option<Attempt>, last: int, floor: nat) {
    row.Some? ==>
      && row.value.windowStart <= last
      && (match row.value.lockedUntil
          case None => floor <= row.value.failedCount < MAX_ATTEMPTS
          case Some(until) => until <= last + LOCKOUT_MS)
  }

  /** The wrong codes `n` already compared during the interval are accounted for by the row. */
  predicate Accounts(row: Option<Attempt>, n: nat, from: int, floor: nat) {
    n > 0 ==>
      && row.Some?
      && match row.value.lockedUntil
         case Some(until) => until >= from + WINDOW_MS && n <= 2 * MAX_ATTEMPTS - 1 - floor
         case None =>
           if row.value.windowStart < from then n <= row.value.failedCount - floor
           else n <= MAX_ATTEMPTS - 1 - floor + row.value.failedCount
  }

  function RowOf(rows: map<string, Attempt>, phone: string): Option<Attempt> {
    if phone in rows then Some(rows[phone]) else None
  }

  /** One call keeps the account, during the interval. */
  lemma CallKeepsAccount(rows: map<string, Attempt>, c: Call, phone: string, last: int, n: nat, from: int, floor: nat)
    requires floor <= 1 && last <= c.now
    requires Sound(RowOf(rows, phone), last, floor)
    requires last < from ==> n == 0
    requires c.now < from + WINDOW_MS ==> Accounts(RowOf(rows, phone), n, from, floor)
    requires n <= 2 * MAX_ATTEMPTS - 1 - floor
    requires floor == 1 ==> !LeavesEmptyRow(rows, c, phone)
    requires from <= c.now < from + WINDOW_MS ==> !Clears(rows, c, phone)
    ensures var rows' := Verify(rows, c.phone, c.now, c.lookup).0;
            var n' := n + if from <= c.now < from + WINDOW_MS && ComparedWrong(rows, c, phone) then 1 else 0;
            && Sound(RowOf(rows', phone), c.now, floor)
            && (c.now < from ==> n' == 0)
            && (c.now < from + WINDOW_MS ==> Accounts(RowOf(rows', phone), n', from, floor))
            && n' <= 2 * MAX_ATTEMPTS - 1 - floor
  {
  }

  lemma BeforeTheLast(calls: seq<Call>, phone: string, from: int)
    requires calls != []
    ensures var k := |calls| - 1;
            var before := RowsAfter(calls[..k]);
            && (Chronological(calls) ==> Chronological(calls[..k]))
            && (NoSuccessDuring(calls, phone, from) ==>
                  && NoSuccessDuring(calls[..k], phone, from)
                  && (from <= calls[k].now < from + WINDOW_MS ==> !Clears(before, calls[k], phone)))
            && (NeverLeavesEmptyRow(calls, phone) ==>
                  NeverLeavesEmptyRow(calls[..k], phone) && !LeavesEmptyRow(before, calls[k], phone))
  {
    var k := |calls| - 1;
    assert forall i | 0 <= i < k :: calls[..k][..i] == calls[..i] && calls[..k][i] == calls[i];
    hide Clears, LeavesEmptyRow, RowsAfter;
  }

  lemma {:induction false} RunKeepsAccount(calls: seq<Call>, phone: string, from: int, floor: nat)
    requires floor <= 1 && Chronological(calls) && NoSuccessDuring(calls, phone, from)
    requires floor == 1 ==> NeverLeavesEmptyRow(calls, phone)
    ensures var n := WrongDuring(calls, phone, from);
            var row := RowOf(RowsAfter(calls), phone);
            && n <= 2 * MAX_ATTEMPTS - 1 - floor
            && (calls == [] ==> row == None && n == 0)
            && (calls != [] ==>
                  var last := calls[|calls| - 1].now;
                  && Sound(row, last, floor)
                  && (last < from ==> n == 0)
                  && (last < from + WINDOW_MS ==> Accounts(row, n, from, floor)))
  {
    if calls != [] {
      var k := |calls| - 1;
      var init, c := calls[..k], calls[k];
      BeforeTheLast(calls, phone, from);
      hide NoSuccessDuring, NeverLeavesEmptyRow;
      RunKeepsAccount(init, phone, from, floor);
      var last := if init == [] then c.now else init[k - 1].now;
      CallKeepsAccount(RowsAfter(init), c, phone, last, WrongDuring(init, phone, from), from, floor);
      hide Verify, Sound, Accounts, ComparedWrong;
    }
  }

  /**
   Main result: in any 15 minutes without a success that clears the phone's row, at most 9 wrong codes
   are compared for it; at most 8 when no right code ever leaves the row behind, empty, after a lock.
   */
  lemma RateBound(calls: seq<Call>, phone: string, from: int)
    requires Chronological(calls) && NoSuccessDuring(calls, phone, from)
    ensures WrongDuring(calls, phone, from) <= 9
    ensures NeverLeavesEmptyRow(calls, phone) ==> WrongDuring(calls, phone, from) <= 8
  {
    RunKeepsAccount(calls, phone, from, 0);
    if NeverLeavesEmptyRow(calls, phone) {
      RunKeepsAccount(calls, phone, from, 1);
    }
  }

  // ---- Both bounds are reached ---------------------------------------------------------------

  /** After these calls, the last at `last`, the phone's row is `row` and `n` wrong codes fell in the interval. */
  ghost predicate Reached(calls: seq<Call>, phone: string, from: int, last: int, row: Option<Attempt>, n: nat) {
    && Chronological(calls)
    && (forall i | 0 <= i < |calls| :: calls[i].now <= last)
    && NoSuccessDuring(calls, phone, from)
    && RowOf(RowsAfter(calls), phone) == row
    && WrongDuring(calls, phone, from) == n
  }

  ghost predicate AllWrong(calls: seq<Call>) {
    forall i | 0 <= i < |calls| :: calls[i].lookup.NoToken?
  }

  /** `longer` goes on from `calls` with wrong codes only. */
  ghost predicate GoesOn(calls: seq<Call>, longer: seq<Call>) {
    calls <= longer && AllWrong(longer[|calls|..])
  }

  lemma WrongCodesLeaveNoEmptyRow(calls: seq<Call>, more: seq<Call>, phone: string)
    requires NeverLeavesEmptyRow(calls, phone) && AllWrong(more)
    ensures NeverLeavesEmptyRow(calls + more, phone)
  {
    assert forall i | 0 <= i < |calls| :: (calls + more)[..i] == calls[..i];
    hide RowsAfter;
  }

  lemma OneMoreCall(
    calls: seq<Call>, c: Call, from: int, last: int, row: Option<Attempt>, n: nat) returns (longer: seq<Call>)
    requires Reached(calls, c.phone, from, last, row, n) && last <= c.now && !IsLocked(row, c.now)
    requires c.lookup.Token? ==> !c.lookup.hasCustomer
    ensures Reached(longer, c.phone, from, c.now,
                    if c.lookup.NoToken? then Some(AfterFailure(Purged(row, c.now), c.now)) else Purged(row, c.now),
                    n + if from <= c.now < from + WINDOW_MS && c.lookup.NoToken? then 1 else 0)
    ensures longer == calls + [c]
  {
    longer := calls + [c];
    assert longer[..|calls|] == calls;
    StillNoSuccess(calls, c, from);
    hide NoSuccessDuring;
  }

  lemma StillNoSuccess(calls: seq<Call>, c: Call, from: int)
    requires NoSuccessDuring(calls, c.phone, from) && (c.lookup.Token? ==> !c.lookup.hasCustomer)
    ensures NoSuccessDuring(calls + [c], c.phone, from)
  {
    var longer := calls + [c];
    assert longer[..|calls|] == calls;
    assert forall i | 0 <= i < |calls| :: longer[..i] == calls[..i];
    assert !Clears(RowsAfter(calls), c, c.phone) by { hide RowsAfter; }
    hide RowsAfter, Clears;
  }

  /** `k` wrong codes in a row within an open window. */
  lemma {:induction false} FailRepeatedly(
    calls: seq<Call>, phone: string, now: int, k: nat, from: int, last: int, row: Attempt, n: nat)
      returns (longer: seq<Call>)
    requires Reached(calls, phone, from, last, Some(row), n) && last <= now
    requires row.lockedUntil == None && now - row.windowStart <= WINDOW_MS && 0 < k
              && row.failedCount + k <= MAX_ATTEMPTS
    ensures Reached(longer, phone, from, now,
                    Some(Attempt(row.failedCount + k, row.windowStart,
                                 if row.failedCount + k == MAX_ATTEMPTS then Some(now + LOCKOUT_MS) else None)),
                    n + if from <= now < from + WINDOW_MS then k else 0)
    ensures GoesOn(calls, longer)
  {
    hide Reached;
    if k == 1 {
      longer := OneMoreCall(calls, Call(phone, now, NoToken), from, last, Some(row), n);
    } else {
      var before := FailRepeatedly(calls, phone, now, k - 1, from, last, row, n);
      longer := OneMoreCall(before, Call(phone, now, NoToken), from, now,
                            Some(Attempt(row.failedCount + k - 1, row.windowStart, None)),
                            n + if from <= now < from + WINDOW_MS then k - 1 else 0);
    }
  }

  lemma WrongCodesGoOn(calls: seq<Call>, one: seq<Call>, c: Call, longer: seq<Call>)
    requires GoesOn(calls, one) && c.lookup.NoToken? && GoesOn(one + [c], longer)
    ensures GoesOn(calls, longer)
  {
    forall i | 0 <= i < |longer| - |calls| ensures longer[|calls|..][i].lookup.NoToken? {
      if i < |one| - |calls| {
        assert one[|calls|..][i] == one[|calls| + i] == longer[|calls| + i];
      } else if |calls| + i > |one| {
        assert longer[|one| + 1..][|calls| + i - |one| - 1] == longer[|calls| + i];
      }
    }
  }

  lemma WhatIsReached(calls: seq<Call>, phone: string, from: int, last: int, row: Option<Attempt>, n: nat)
    requires Reached(calls, phone, from, last, row, n)
    ensures Chronological(calls) && NoSuccessDuring(calls, phone, from) && WrongDuring(calls, phone, from) == n
  {
    hide Chronological, NoSuccessDuring, WrongDuring, RowsAfter;
  }

  /** Some wrong codes in an open window, then, once it has run out, five up to the lock. */
  lemma TwoWindows(calls: seq<Call>, phone: string, t: int, from: int, first: nat) returns (longer: seq<Call>)
    requires first < MAX_ATTEMPTS - 1 && from == t + 2
    requires Reached(calls, phone, from, t, Some(Attempt(first, t, None)), 0)
    ensures GoesOn(calls, longer) && Chronological(longer) && NoSuccessDuring(longer, phone, from)
    ensures WrongDuring(longer, phone, from) == 2 * MAX_ATTEMPTS - 1 - first
  {
    var later, k := t + WINDOW_MS + 1, MAX_ATTEMPTS - 1 - first;
    hide Reached, GoesOn, NoSuccessDuring, WrongDuring, Chronological;
    var one := FailRepeatedly(calls, phone, from, k, from, t, Attempt(first, t, None), 0);
    var two := OneMoreCall(one, Call(phone, later, NoToken), from, from, Some(Attempt(MAX_ATTEMPTS - 1, t, None)), k);
    longer := FailRepeatedly(two, phone, later, MAX_ATTEMPTS - 1, from, later, Attempt(1, later, None), k + 1);
    WrongCodesGoOn(calls, one, Call(phone, later, NoToken), longer);
    WhatIsReached(longer, phone, from, later, Some(Attempt(MAX_ATTEMPTS, later, Some(later + LOCKOUT_MS))),
        2 * MAX_ATTEMPTS - 1 - first);
  }

  lemma {:induction false} NothingYet(calls: seq<Call>, phone: string, from: int)
    requires forall i | 0 <= i < |calls| :: calls[i].now < from
    ensures WrongDuring(calls, phone, from) == 0 && NoSuccessDuring(calls, phone, from)
  {
    hide ComparedWrong, Clears, RowsAfter;
    if calls != [] {
      NothingYet(calls[..|calls| - 1], phone, from);
    }
  }

  /** Three left over from an open window, then five up to the lock. */
  lemma EightIsReached(phone: string) returns (calls: seq<Call>, from: int)
    ensures Chronological(calls) && NoSuccessDuring(calls, phone, from) && NeverLeavesEmptyRow(calls, phone)
    ensures WrongDuring(calls, phone, from) == 8
  {
    from := 2;
    NothingYet([], phone, from);
    var c := Call(phone, 0, NoToken);
    var first := OneMoreCall([], c, from, 0, None, 0);
    hide Reached, NoSuccessDuring, NeverLeavesEmptyRow, RowsAfter, WrongDuring, GoesOn;
    OnlyWrongCodes(first, phone);
    calls := TwoWindows(first, phone, 0, from, 1);
    GoingOnLeavesNoEmptyRow(first, calls, phone);
  }

  lemma OnlyWrongCodes(calls: seq<Call>, phone: string)
    requires AllWrong(calls)
    ensures NeverLeavesEmptyRow(calls, phone)
  {
    hide RowsAfter;
  }

  lemma GoingOnLeavesNoEmptyRow(calls: seq<Call>, longer: seq<Call>, phone: string)
    requires NeverLeavesEmptyRow(calls, phone) && GoesOn(calls, longer)
    ensures NeverLeavesEmptyRow(longer, phone)
  {
    assert calls + longer[|calls|..] == longer;
    WrongCodesLeaveNoEmptyRow(calls, longer[|calls|..], phone);
    hide NeverLeavesEmptyRow;
  }

  /** Each time a right code leaves the row behind, empty, wrong codes alone can then make it nine. */
  lemma EmptyRowLetsNineIn(calls: seq<Call>, phone: string) returns (longer: seq<Call>, from: int)
    requires calls != [] && Chronological(calls)
    requires var k := |calls| - 1; LeavesEmptyRow(RowsAfter(calls[..k]), calls[k], phone)
    ensures GoesOn(calls, longer) && Chronological(longer) && NoSuccessDuring(longer, phone, from)
    ensures WrongDuring(longer, phone, from) == 9
  {
    var t := calls[|calls| - 1].now;
    from := t + 2;
    NothingYet(calls, phone, from);
    assert RowOf(RowsAfter(calls), phone) == Some(Attempt(0, t, None)) by { hide NoSuccessDuring, WrongDuring; }
    hide RowsAfter, LeavesEmptyRow;
    longer := TwoWindows(calls, phone, t, from, 0);
  }

  /** After these calls, wrong codes alone never make it more than eight. */
  ghost predicate EightFrom(calls: seq<Call>, phone: string) {
    forall longer, from | GoesOn(calls, longer) && Chronological(longer) && NoSuccessDuring(longer, phone, from) ::
      WrongDuring(longer, phone, from) <= 8
  }

  /**
   Main result: eight is the bound, at every point of a history and whatever wrong codes follow, if and only if
   no call of that history let a right code leave the row behind, empty, after a lock.
   */
  lemma EightHoldsIff(calls: seq<Call>, phone: string)
    requires Chronological(calls)
    ensures (forall i | 0 <= i <= |calls| :: EightFrom(calls[..i], phone)) <==> NeverLeavesEmptyRow(calls, phone)
  {
    hide RowsAfter, WrongDuring, LeavesEmptyRow;
    if NeverLeavesEmptyRow(calls, phone) {
      forall i, longer, from | 0 <= i <= |calls| && GoesOn(calls[..i], longer) && Chronological(longer)
          && NoSuccessDuring(longer, phone, from)
        ensures WrongDuring(longer, phone, from) <= 8
      {
        assert forall j | 0 <= j < i :: calls[..i][..j] == calls[..j];
        GoingOnLeavesNoEmptyRow(calls[..i], longer, phone);
        RateBound(longer, phone, from);
      }
    } else {
      var i :| 0 <= i < |calls| && LeavesEmptyRow(RowsAfter(calls[..i]), calls[i], phone);
      assert calls[..i + 1][..i] == calls[..i];
      var longer, from := EmptyRowLetsNineIn(calls[..i + 1], phone);
      assert !EightFrom(calls[..i + 1], phone);
    }
  }

  /** A right code without customer, entered when the lock expires, leaves room for a ninth. */
  lemma NineIsReached(phone: string) returns (calls: seq<Call>, from: int)
    ensures Chronological(calls) && NoSuccessDuring(calls, phone, from)
    ensures WrongDuring(calls, phone, from) == 9
  {
    from := LOCKOUT_MS + 2;
    NothingYet([], phone, from);
    var one := OneMoreCall([], Call(phone, 0, NoToken), from, 0, None, 0);
    var five := FailRepeatedly(one, phone, 0, 4, from, 0, Attempt(1, 0, None), 0);
    var purged := OneMoreCall(five, Call(phone, LOCKOUT_MS, Token(phone, false)), from, 0,
        Some(Attempt(5, 0, Some(LOCKOUT_MS))), 0);
    calls := TwoWindows(purged, phone, LOCKOUT_MS, from, 0);
    hide NoSuccessDuring, RowsAfter, WrongDuring;
  }
}
