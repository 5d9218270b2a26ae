/**
 One call row of the group-ringing service (src/modules/calls/services/calls.service.ts) and what
 each conditional update does to it. Receivers are distinct, so the id arrays are sets.
 */
module CallRows {
  import opened Wrappers

  datatype CallStatus = Ringing | Ongoing | Ended | Missed | Cancelled | Failed

  datatype Call = Call(
    status: CallStatus,
    caller: string,
    room: string,
    ringing: set<string>,
    rung: set<string>,
    answeredBy: Option<string>,
    startedAt: int
  )

  datatype User = User(id: string, isAdmin: bool)

  /** What the endpoints answer. */
  datatype Reply = NotFound | Forbidden | Taken(taken: bool) | Status(status: CallStatus)

  /** Emissions and room deletions that the results count. */
  datatype Signal =
    | Won(user: string)
    | Removed(user: string)
    | NoAnswerAndRoomDeleted(seenAs: CallStatus)
    | RoomDeleted

  const STALE_MS := 4 * 60 * 60 * 1000

  predicate Terminal(s: CallStatus) {
    s.Ended? || s.Missed? || s.Cancelled? || s.Failed?
  }

  function Opened(caller: string, room: string, receivers: set<string>, now: int): Call {
    Call(Ringing, caller, room, receivers, receivers, None, now)
  }

  predicate IsParticipant(c: Call, u: User) {
    c.caller == u.id || c.answeredBy == Some(u.id) || u.id in c.rung || u.isAdmin
  }

  // ---- Atomic conditional updates -----------------------------------------------------

  function ClaimAnswer(c: Call, user: string): Call {
    if c.status.Ringing? then c.(status := Ongoing, answeredBy := Some(user)) else c
  }

  function ClaimRemoval(c: Call, user: string): Call {
    if c.status.Ringing? then c.(ringing := c.ringing - {user}) else c
  }

  function ClaimMissed(c: Call): Call {
    if c.status.Ringing? then c.(status := Missed) else c
  }

  function ClaimCancelled(c: Call): Call {
    if c.status.Ringing? then c.(status := Cancelled) else c
  }

  function ClaimEnded(c: Call): Call {
    if c.status.Ongoing? then c.(status := Ended) else c
  }

  function Swept(c: Call, now: int): Call {
    if c.status.Ongoing? && c.startedAt < now - STALE_MS then c.(status := Ended) else c
  }

  function SessionEnded(c: Call, room: string): Call {
    if c.room == room && (c.status.Ringing? || c.status.Ongoing?) then c.(status := Ended) else c
  }

  // ---- Handlers, each on its own: the row, the reply and the emissions ------------------------

  function Answered(c: Call, user: string): (Call, Reply, seq<Signal>) {
    if user !in c.ringing then (c, Forbidden, [])
    else (ClaimAnswer(c, user), Taken(!c.status.Ringing?), if c.status.Ringing? then [Won(user)] else [])
  }

  function Rejected(c: Call, user: string): (Call, Reply, seq<Signal>) {
    if user !in c.rung then (c, Forbidden, [])
    else if !c.status.Ringing? then (c, Status(c.status), [])
    else
      var c' := ClaimRemoval(c, user);
      if c'.ringing == {} then (ClaimMissed(c'), Status(Missed), [Removed(user), NoAnswerAndRoomDeleted(Missed)])
      else (c', Status(Ringing), [Removed(user)])
  }

  function HungUp(c: Call, u: User): (Call, Reply, seq<Signal>) {
    if !IsParticipant(c, u) then (c, Forbidden, [])
    else if Terminal(c.status) then (c, Status(c.status), [])
    else if c.status.Ringing? then
      if c.caller != u.id then Rejected(c, u.id) else (ClaimCancelled(c), Status(Cancelled), [RoomDeleted])
    else (ClaimEnded(c), Status(Ended), [RoomDeleted])
  }
}
