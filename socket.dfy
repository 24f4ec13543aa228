/**
 * The real-time session coordinator (backend/src/socket/index.ts): the handshake middleware and
 * the `join-interview`, `webrtc-signal`, `proctoring-event` and `disconnect` handlers, each one
 * atomic step over the connections, the socket.io rooms, the outgoing events and the store.
 * `socket.to(room)` reaches every member of the room except the sender.
 */
module Socket {
  import opened Wrappers
  import opened Enums
  import opened Text
  import opened Json
  import opened UserModel
  import opened InterviewModel
  import opened LogModel
  import opened Store
  import opened InterviewRoutes

  /** A connected socket: the user the handshake attached and the room it joined last. */
  datatype Conn = Conn(user: Profile, interviewId: Option<string>)

  datatype Event =
    | ErrorEvent(message: string)
    | JoinedInterview(interviewId: string)
    | UserJoined(userId: string, userName: string, userRole: Role)
    | UserLeft(userId: string, userName: string)
    | WebrtcSignal(payload: Json.Object)
    | ProctoringAlert(alertType: string, details: string, severity: string, timestamp: int, candidateName: string)

  /** One event emitted to one connection. */
  datatype Emit = Emit(to: nat, event: Event)

  /** Where the proctoring pipeline may fail: `log.save()`, or the `$push` onto the interview. */
  datatype Fault = NoFault | SaveFault | PushFault

  /** The events connection `c` has been sent, in order. */
  function Received(out: seq<Emit>, c: nat): (r: seq<Event>)
    ensures |r| <= |out|
  {
    if out == [] then []
    else Received(out[..|out| - 1], c) + (if out[|out| - 1].to == c then [out[|out| - 1].event] else [])
  }

  lemma ReceivedSnoc(out: seq<Emit>, e: Emit, c: nat)
    ensures Received(out + [e], c) == Received(out, c) + (if e.to == c then [e.event] else [])
  {
    assert (out + [e])[..|out|] == out;
  }

  function MembersOf(rooms: map<string, set<nat>>, room: string): set<nat>
  {
    if room in rooms then rooms[room] else {}
  }

  /** The rooms once `c` has left all of them; socket.io deletes a room that becomes empty. */
  function LeaveAll(rooms: map<string, set<nat>>, c: nat): (r: map<string, set<nat>>)
    ensures forall room :: room in r <==> room in rooms && rooms[room] - {c} != {}
    ensures forall room :: room in r ==> r[room] == rooms[room] - {c}
  {
    map room | room in rooms && rooms[room] - {c} != {} :: rooms[room] - {c}
  }

  /** `Interview.findById(room)`: the canonical id text of a 24-hex-digit room name. */
  function RoomKey(room: string): (k: string)
    requires IsHex24(room)
    ensures IsObjectIdText(k) && k == Lower(room)
  {
    CastObjectId(room).value
  }

  class Coordinator {
    const db: Database
    var conns: map<nat, Conn>
    var rooms: map<string, set<nat>>
    var outbox: seq<Emit>

    /**
     * Rooms are non-empty sets of live connections, and a connection that joined an interview
     * is a member of that room, whose name is 24 hexadecimal digits.
     */
    ghost predicate Valid()
      reads this, db
    {
      && db.Valid()
      && (forall r :: r in rooms ==> rooms[r] != {} && rooms[r] <= conns.Keys)
      && (forall c :: c in conns && conns[c].interviewId.Some? ==>
            && IsHex24(conns[c].interviewId.value)
            && conns[c].interviewId.value in rooms
            && c in rooms[conns[c].interviewId.value])
    }

    constructor (store: Database)
      requires store.Valid()
      ensures Valid()
      ensures db == store && conns == map[] && rooms == map[] && outbox == []
    {
      db := store;
      conns := map[];
      rooms := map[];
      outbox := [];
    }

    /** `socket.emit(ev)`: one event to the connection itself. */
    method Send(c: nat, ev: Event)
      modifies this
      ensures conns == old(conns) && rooms == old(rooms)
      ensures outbox == old(outbox) + [Emit(c, ev)]
      ensures forall d :: Received(outbox, d) == Received(old(outbox), d) + (if d == c then [ev] else [])
    {
      outbox := outbox + [Emit(c, ev)];
      forall d {
        ReceivedSnoc(old(outbox), Emit(c, ev), d);
      }
    }

    /** `.emit(ev)` to each of `targets` once, in whatever order socket.io walks the room. */
    method Broadcast(targets: set<nat>, ev: Event)
      modifies this
      ensures conns == old(conns) && rooms == old(rooms)
      ensures |outbox| == |old(outbox)| + |targets|
      ensures forall d :: Received(outbox, d) == Received(old(outbox), d) + (if d in targets then [ev] else [])
    {
      var rest := targets;
      while rest != {}
        invariant rest <= targets
        invariant conns == old(conns) && rooms == old(rooms)
        invariant |outbox| == |old(outbox)| + |targets - rest|
        invariant forall d :: Received(outbox, d) == Received(old(outbox), d) + (if d in targets - rest then [ev] else [])
        decreases rest
      {
        var t :| t in rest;
        ghost var before := outbox;
        outbox := outbox + [Emit(t, ev)];
        forall d {
          ReceivedSnoc(before, Emit(t, ev), d);
        }
        assert targets - (rest - {t}) == (targets - rest) + {t};
        rest := rest - {t};
      }
    }

    /**
     * The handshake middleware. `verify` is `jwt.verify` returning the token's `userId`; a failed
     * verification, or an id that does not cast to an ObjectId, is the caught exception.
     * `err` is the message of the error passed to `next`; no connection exists then.
     */
    method Connect(cid: nat, token: Option<string>, verify: string -> Option<string>) returns (err: Option<string>)
      requires Valid() && cid !in conns
      modifies this
      ensures Valid()
      ensures rooms == old(rooms) && outbox == old(outbox)
      ensures err.Some? ==> conns == old(conns)
      ensures !Truthy(token) ==> err == Some("Authentication error: No token provided")
      ensures Truthy(token) && (verify(token.value).None? || !IsHex24(verify(token.value).value)) ==>
                err == Some("Authentication error: Invalid token")
      ensures Truthy(token) && verify(token.value).Some? && IsHex24(verify(token.value).value) ==>
                var id := Lower(verify(token.value).value);
                && (err == Some("Authentication error: User not found") <==>
                      !exists e :: e in db.users && db.users[e].id == id)
                && (err.None? ==> exists e :: e in db.users && db.users[e].id == id &&
                                    conns == old(conns)[cid := Conn(ProfileOf(db.users[e]), None)])
    {
      if !Truthy(token) {
        return Some("Authentication error: No token provided");
      }
      var decoded := verify(token.value);
      if decoded.None? {
        return Some("Authentication error: Invalid token");
      }
      var id := CastObjectId(decoded.value);
      if id.None? {
        return Some("Authentication error: Invalid token");
      }
      var user := db.FindUserById(id.value);
      if user.None? {
        return Some("Authentication error: User not found");
      }
      conns := conns[cid := Conn(ProfileOf(user.value), None)];
      err := None;
    }

    /**
     * `join-interview`. A room name that does not cast to an ObjectId makes `findById` throw
     * (reported as "Failed to join interview"); an undefined one finds nothing.
     */
    method Join(cid: nat, interviewId: Option<string>)
      requires Valid() && cid in conns
      modifies this
      ensures Valid()
      ensures interviewId.Some? && !IsHex24(interviewId.value) ==>
                && outbox == old(outbox) + [Emit(cid, ErrorEvent("Failed to join interview"))]
                && conns == old(conns) && rooms == old(rooms)
      ensures interviewId.None? || (IsHex24(interviewId.value) && Lower(interviewId.value) !in db.interviews) ==>
                && outbox == old(outbox) + [Emit(cid, ErrorEvent("Interview not found"))]
                && conns == old(conns) && rooms == old(rooms)
      ensures interviewId.Some? && IsHex24(interviewId.value) && Lower(interviewId.value) in db.interviews ==>
                var room, user := interviewId.value, old(conns)[cid].user;
                if !HasAccess(user, db.interviews[Lower(room)]) then
                  && outbox == old(outbox) + [Emit(cid, ErrorEvent("Access denied to this interview"))]
                  && conns == old(conns) && rooms == old(rooms)
                else
                  && rooms == old(rooms)[room := MembersOf(old(rooms), room) + {cid}]
                  && conns == old(conns)[cid := Conn(user, Some(room))]
                  && Received(outbox, cid) == Received(old(outbox), cid) + [JoinedInterview(room)]
                  && forall d :: d != cid ==>
                       Received(outbox, d) == Received(old(outbox), d) +
                         (if d in MembersOf(old(rooms), room) then [UserJoined(user.id, user.name, user.role)] else [])
    {
      if interviewId.None? {
        Send(cid, ErrorEvent("Interview not found"));
        return;
      }
      var room := interviewId.value;
      var key := CastObjectId(room);
      if key.None? {
        Send(cid, ErrorEvent("Failed to join interview"));
        return;
      }
      if key.value !in db.interviews {
        Send(cid, ErrorEvent("Interview not found"));
        return;
      }
      var user := conns[cid].user;
      if !HasAccess(user, db.interviews[key.value]) {
        Send(cid, ErrorEvent("Access denied to this interview"));
        return;
      }
      var others := MembersOf(rooms, room) - {cid};
      Enter(cid, room);
      Broadcast(others, UserJoined(user.id, user.name, user.role));
      Send(cid, JoinedInterview(room));
    }

    /** `socket.join(room)` and the `interviewId` assignment, before any event is sent. */
    method Enter(cid: nat, room: string)
      requires Valid() && cid in conns && IsHex24(room)
      modifies this
      ensures Valid()
      ensures rooms == old(rooms)[room := MembersOf(old(rooms), room) + {cid}]
      ensures conns == old(conns)[cid := Conn(old(conns)[cid].user, Some(room))]
      ensures outbox == old(outbox)
    {
      rooms := rooms[room := MembersOf(rooms, room) + {cid}];
      conns := conns[cid := Conn(conns[cid].user, Some(room))];
    }

    /** `webrtc-signal`: relayed to the rest of the room with the sender's id as `fromUserId`. */
    method Signal(cid: nat, data: Json.Object)
      requires Valid() && cid in conns
      modifies this
      ensures Valid()
      ensures conns == old(conns) && rooms == old(rooms)
      ensures !Truthy(conns[cid].interviewId) ==>
                outbox == old(outbox) + [Emit(cid, ErrorEvent("Not in an interview room"))]
      ensures Truthy(conns[cid].interviewId) ==>
                var others := MembersOf(rooms, conns[cid].interviewId.value) - {cid};
                var relayed := SpreadWith(data, "fromUserId", Str(conns[cid].user.id));
                forall d :: Received(outbox, d) == Received(old(outbox), d) + (if d in others then [WebrtcSignal(relayed)] else [])
    {
      var conn := conns[cid];
      if !Truthy(conn.interviewId) {
        Send(cid, ErrorEvent("Not in an interview room"));
        return;
      }
      var others := MembersOf(rooms, conn.interviewId.value) - {cid};
      Broadcast(others, WebrtcSignal(SpreadWith(data, "fromUserId", Str(conn.user.id))));
    }

    /**
     * `proctoring-event` with the fields `type`, `details` and `severity` of the payload. `logId`
     * is the id the driver gives the new log; `fault` says which database call throws, if any.
     * Every refusal and every failure is silent.
     */
    method Proctoring(cid: nat, logType: Option<string>, details: Option<string>, severity: Option<string>,
                      now: int, logId: string, fault: Fault)
      requires Valid() && cid in conns
      requires IsObjectIdText(logId) && logId !in db.logs
      modifies this, db
      ensures Valid()
      ensures conns == old(conns) && rooms == old(rooms)
      ensures db.users == old(db.users)
      ensures var c := conns[cid];
              !Truthy(c.interviewId) || c.user.role != Candidate || !IsHex24(c.interviewId.value) ==>
                outbox == old(outbox) && db.logs == old(db.logs) && db.interviews == old(db.interviews)
      ensures var c := conns[cid];
              Truthy(c.interviewId) && c.user.role == Candidate && IsHex24(c.interviewId.value) ==>
                var room, sev := c.interviewId.value, OrElse(severity, "medium");
                var log := CreateLog(RoomKey(room), logType, details, Some(sev), now);
                && (log.None? || fault == SaveFault ==>
                      outbox == old(outbox) && db.logs == old(db.logs) && db.interviews == old(db.interviews))
                && (log.Some? && fault != SaveFault ==> db.logs == old(db.logs)[logId := log.value])
                && (log.Some? && fault == PushFault ==> outbox == old(outbox) && db.interviews == old(db.interviews))
                && (log.Some? && fault == NoFault ==>
                      && (RoomKey(room) in old(db.interviews) ==>
                            var iv := old(db.interviews)[RoomKey(room)];
                            db.interviews == old(db.interviews)[RoomKey(room) := iv.(logs := iv.logs + [logId], updatedAt := now)])
                      && (RoomKey(room) !in old(db.interviews) ==> db.interviews == old(db.interviews))
                      && forall d :: Received(outbox, d) == Received(old(outbox), d) +
                           (if d in MembersOf(rooms, room) - {cid}
                            then [ProctoringAlert(logType.value, details.value, sev, now, c.user.name)] else []))
    {
      var conn := conns[cid];
      if !Truthy(conn.interviewId) {
        return;
      }
      if conn.user.role != Candidate {
        return;
      }
      var room := conn.interviewId.value;
      var sev := OrElse(severity, "medium");
      var log := CreateLog(RoomKey(room), logType, details, Some(sev), now);
      if log.None? || fault == SaveFault {
        return;
      }
      db.AddLog(logId, log.value);
      if fault == PushFault {
        return;
      }
      db.PushLog(RoomKey(room), logId, now);
      Broadcast(MembersOf(rooms, room) - {cid},
                ProctoringAlert(logType.value, details.value, sev, now, conn.user.name));
    }

    /**
     * `disconnect`: socket.io has already taken the connection out of every room when the handler
     * runs; a connection that had joined an interview tells the rest of that room it left.
     */
    method Disconnect(cid: nat)
      requires Valid() && cid in conns
      modifies this
      ensures Valid()
      ensures conns == old(conns) - {cid}
      ensures rooms == LeaveAll(old(rooms), cid)
      ensures !Truthy(old(conns)[cid].interviewId) ==> outbox == old(outbox)
      ensures Truthy(old(conns)[cid].interviewId) ==>
                var c := old(conns)[cid];
                var others := MembersOf(old(rooms), c.interviewId.value) - {cid};
                forall d :: Received(outbox, d) == Received(old(outbox), d) +
                  (if d in others then [UserLeft(c.user.id, c.user.name)] else [])
    {
      var conn := conns[cid];
      rooms := LeaveAll(rooms, cid);
      conns := conns - {cid};
      if Truthy(conn.interviewId) {
        Broadcast(MembersOf(rooms, conn.interviewId.value), UserLeft(conn.user.id, conn.user.name));
      }
    }
  }
}
