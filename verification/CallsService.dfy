/** The calls service, endpoint by endpoint, as it updates the call rows. */
module CallsService {
  import opened Wrappers
  import opened CallRows

  function On(id: string, signals: seq<Signal>): seq<(string, Signal)> {
    seq(|signals|, i requires 0 <= i < |signals| => (id, signals[i]))
  }

  class Calls {
    var calls: map<string, Call>
    /** Emissions and room deletions, by call. */
    var log: seq<(string, Signal)>

    constructor ()
      ensures calls == map[] && log == []
    {
      calls, log := map[], [];
    }

    /** `createAndRing` once the room exists; a group without receivers is refused before. */
    method Open(id: string, caller: string, room: string, receivers: set<string>, now: int) returns (accepted: bool)
      requires id !in calls
      modifies this`calls
      ensures accepted == (receivers != {})
      ensures calls == if accepted then old(calls)[id := Opened(caller, room, receivers, now)] else old(calls)
    {
      if receivers == {} { return false; }
      calls := calls[id := Call(Ringing, caller, room, receivers, receivers, None, now)];
      return true;
    }

    method Answer(id: string, user: string) returns (r: Reply)
      modifies this
      ensures id !in old(calls) ==> r == NotFound && calls == old(calls) && log == old(log)
      ensures id in old(calls) ==>
                var (c, reply, signals) := Answered(old(calls)[id], user);
                r == reply && calls == old(calls)[id := c] && log == old(log) + On(id, signals)
    {
      if id !in calls { return NotFound; }
      var call := calls[id];
      assert calls == calls[id := call];
      if user !in call.ringing { return Forbidden; }
      var claimed := 0;
      if call.status == Ringing {
        calls := calls[id := call.(status := Ongoing, answeredBy := Some(user))];
        log := log + [(id, Won(user))];
        claimed := 1;
      }
      return Taken(claimed == 0);
    }

    method Reject(id: string, user: string) returns (r: Reply)
      modifies this
      ensures id !in old(calls) ==> r == NotFound && calls == old(calls) && log == old(log)
      ensures id in old(calls) ==>
                var (c, reply, signals) := Rejected(old(calls)[id], user);
                r == reply && calls == old(calls)[id := c] && log == old(log) + On(id, signals)
    {
      if id !in calls { return NotFound; }
      var call := calls[id];
      assert calls == calls[id := call];
      if user !in call.rung { return Forbidden; }
      if call.status != Ringing { return Status(call.status); }
      var left := call.ringing - {user};
      calls := calls[id := call.(ringing := left)];
      log := log + [(id, Removed(user))];
      if left == {} {
        calls := calls[id := calls[id].(status := Missed)];
        log := log + [(id, NoAnswerAndRoomDeleted(calls[id].status))];
        return Status(Missed);
      }
      return Status(Ringing);
    }

    method EndOngoing(id: string)
      requires id in calls
      modifies this
      ensures calls == old(calls)[id := ClaimEnded(old(calls)[id])]
      ensures log == old(log) + if old(calls)[id].status.Ongoing? then [(id, RoomDeleted)] else []
    {
      if calls[id].status == Ongoing {
        calls := calls[id := calls[id].(status := Ended)];
        log := log + [(id, RoomDeleted)];
      }
    }

    method Hangup(id: string, user: User) returns (r: Reply)
      modifies this
      ensures id !in old(calls) ==> r == NotFound && calls == old(calls) && log == old(log)
      ensures id in old(calls) ==>
                var (c, reply, signals) := HungUp(old(calls)[id], user);
                r == reply && calls == old(calls)[id := c] && log == old(log) + On(id, signals)
    {
      if id !in calls { return NotFound; }
      var call := calls[id];
      assert calls == calls[id := call];
      if !IsParticipant(call, user) { return Forbidden; }
      if Terminal(call.status) { return Status(call.status); }
      if call.status == Ringing {
        if call.caller != user.id {
          r := Reject(id, user.id);
          return;
        }
        calls := calls[id := call.(status := Cancelled)];
        log := log + [(id, RoomDeleted)];
        return Status(Cancelled);
      }
      EndOngoing(id);
      return Status(Ended);
    }

    /** The sweep which opens `getActiveForMe`. */
    method SweepStale(now: int)
      modifies this`calls
      ensures calls == map id | id in old(calls) :: Swept(old(calls)[id], now)
    {
      calls := map id | id in calls ::
        if calls[id].status == Ongoing && calls[id].startedAt < now - STALE_MS
        then calls[id].(status := Ended) else calls[id];
    }

    method HandleWebhook(event: string, room: string)
      modifies this`calls
      ensures calls == if event == "session.ended" && room != ""
                       then map id | id in old(calls) :: SessionEnded(old(calls)[id], room)
                       else old(calls)
    {
      if event == "session.ended" && room != "" {
        calls := map id | id in calls ::
          if calls[id].room == room && (calls[id].status == Ringing || calls[id].status == Ongoing)
          then calls[id].(status := Ended) else calls[id];
      }
    }
  }
}
