/**
 * The realtime layer: handshake authentication, the presence registry (user id to the set of that
 * user's live sockets), rooms, presence notifications to matched partners, and chat delivery.
 * The transport (`socket.join`, `socket.leave`, `io.to(room).emit`) is a room map plus a log of
 * emissions, each with the sockets the room held when it was emitted.
 */
module SocketHandler {
  import opened Js
  import opened Models
  import opened Store
  import opened Tokens

  type SocketId = string

  /**
   * A broadcast group: a user's personal room, joined by every socket of that user on connection,
   * or a match's conversation room, joined on `join_match`.
   */
  datatype Room = UserRoom(userId: int) | MatchRoom(matchId: int)

  /** `socket.handshake.auth.token` and `socket.handshake.query.token`. */
  datatype Handshake = Handshake(authToken: Option<string>, queryToken: Option<string>)

  datatype AuthError = NoTokenProvided | InvalidToken

  datatype Admission = Admitted(user: Claims) | Rejected(error: AuthError)

  datatype SenderInfo = SenderInfo(id: int, username: Option<string>, profileImageUrl: Option<string>)

  /** The `new_message` payload: the persisted row plus the sender's display data. */
  datatype MessagePayload = MessagePayload(message: ChatMessage, sender: SenderInfo)

  datatype Event = UserOnline(userId: int) | UserOffline(userId: int) | NewMessage(payload: MessagePayload)

  datatype Emission = Emission(room: Room, recipients: set<SocketId>, event: Event)

  datatype SendResult = InvalidData | NotMember | Delivered(message: ChatMessage)

  // ---------------------------------------------------------------- handshake

  /** `socket.handshake.auth.token || socket.handshake.query.token`. */
  function HandshakeToken(h: Handshake): Option<string> {
    if TruthyText(h.authToken) then h.authToken else h.queryToken
  }

  /**
   * The `io.use` middleware: no token, or a token that does not verify under `JWT_SECRET`, refuses
   * the connection; otherwise the decoded payload becomes `socket.user`.
   */
  function Admit(h: Handshake, j: Jwt, secrets: Secrets, now: int): (r: Admission)
    ensures r == Rejected(NoTokenProvided) <==> !TruthyText(h.authToken) && !TruthyText(h.queryToken)
    ensures r == Rejected(InvalidToken) <==>
      TruthyText(HandshakeToken(h)) && j.verify(secrets.jwtSecret, HandshakeToken(h).value, now).None?
    ensures r.Admitted? ==> TruthyText(HandshakeToken(h)) && j.verify(secrets.jwtSecret, HandshakeToken(h).value, now) == Some(r.user)
  {
    var token := HandshakeToken(h);
    if !TruthyText(token) then Rejected(NoTokenProvided)
    else match j.verify(secrets.jwtSecret, token.value, now)
      case None => Rejected(InvalidToken)
      case Some(claims) => Admitted(claims)
  }

  // ---------------------------------------------------------------- rooms

  function MembersOf<K(!new)>(rooms: map<K, set<SocketId>>, k: K): set<SocketId> {
    if k in rooms then rooms[k] else {}
  }

  /** `socket.join(k)`: the room gains the socket, every other room is untouched. */
  function JoinRoom<K(!new)>(rooms: map<K, set<SocketId>>, k: K, sid: SocketId): (r: map<K, set<SocketId>>)
    ensures MembersOf(r, k) == MembersOf(rooms, k) + {sid}
    ensures forall k' :: k' != k ==> MembersOf(r, k') == MembersOf(rooms, k')
  {
    rooms[k := MembersOf(rooms, k) + {sid}]
  }

  /** `socket.leave(k)`: the room loses the socket, every other room is untouched. */
  function LeaveRoom<K(!new)>(rooms: map<K, set<SocketId>>, k: K, sid: SocketId): (r: map<K, set<SocketId>>)
    ensures MembersOf(r, k) == MembersOf(rooms, k) - {sid}
    ensures forall k' :: k' != k ==> MembersOf(r, k') == MembersOf(rooms, k')
  {
    rooms[k := MembersOf(rooms, k) - {sid}]
  }

  /** The room name the source uses for both kinds of room: `id.toString()`. */
  function LegacyRoomName(r: Room): string {
    match r
    case UserRoom(u) => IntToString(u)
    case MatchRoom(m) => IntToString(m)
  }

  /**
   * With rooms named by `id.toString()`, the personal room of user 5 and the chat room of match 5
   * are one room: a socket of user 5, which joined its personal room on connection, receives the
   * `new_message` broadcast of match 5 between users 7 and 8.
   */
  lemma {:induction false} LegacyRoomNamesCollide()
    ensures var joined := JoinRoom(map[], LegacyRoomName(UserRoom(5)), "socket-of-user-5");
            && !Involves(Match(5, 7, 8), 5)
            && "socket-of-user-5" in MembersOf(joined, LegacyRoomName(MatchRoom(5)))
  {
    assert LegacyRoomName(UserRoom(5)) == LegacyRoomName(MatchRoom(5));
  }

  /** With tagged rooms, joining a personal room never changes who is in any match room. */
  lemma {:induction false} UserRoomJoinKeepsMatchRooms(rooms: map<Room, set<SocketId>>, u: int, sid: SocketId, m: int)
    ensures MembersOf(JoinRoom(rooms, UserRoom(u), sid), MatchRoom(m)) == MembersOf(rooms, MatchRoom(m))
  {
    assert UserRoom(u) != MatchRoom(m);
  }

  // ---------------------------------------------------------------- presence notifications

  /** `notifyMatchesAboutStatus` step 2: the other party of every match of `u`, `u` itself filtered out. */
  function PartnerIds(ms: seq<Match>, u: int): (r: seq<int>)
    ensures |r| <= |ms|
    ensures forall p :: p in r <==> p != u && exists i :: 0 <= i < |ms| && MatchBetween(ms[i], u, p)
  {
    if ms == [] then []
    else
      var rest := PartnerIds(ms[1..], u);
      assert forall i :: 1 <= i < |ms| ==> ms[i] == ms[1..][i - 1];
      assert forall p, i :: 0 <= i < |ms[1..]| && MatchBetween(ms[1..][i], u, p) ==> MatchBetween(ms[i + 1], u, p);
      if Involves(ms[0], u) && Other(ms[0], u) != u then [Other(ms[0], u)] + rest else rest
  }

  function StatusEvent(u: int, isOnline: bool): Event {
    if isOnline then UserOnline(u) else UserOffline(u)
  }

  /** One emission per partner id, to that partner's personal room, carrying the status of `u`. */
  function StatusEmissions(rooms: map<Room, set<SocketId>>, partners: seq<int>, u: int, isOnline: bool): (r: seq<Emission>)
    ensures |r| == |partners|
    ensures forall i :: 0 <= i < |r| ==>
      r[i].room == UserRoom(partners[i]) && r[i].recipients == MembersOf(rooms, UserRoom(partners[i]))
  {
    seq(|partners|, i requires 0 <= i < |partners| => Emission(UserRoom(partners[i]), MembersOf(rooms, UserRoom(partners[i])), StatusEvent(u, isOnline)))
  }

  /** The rooms a sequence of emissions was sent to. */
  function EmissionRooms(es: seq<Emission>): set<Room> {
    set e | e in es :: e.room
  }

  /**
   * The emissions of `notifyMatchesAboutStatus(u, isOnline)` go to exactly the personal rooms of
   * the partners of `u`, never to the personal room of `u` itself, and carry `user_online` exactly
   * when `isOnline`.
   */
  lemma {:induction false} StatusNotificationsReachPartners(rooms: map<Room, set<SocketId>>, ms: seq<Match>, u: int, isOnline: bool)
    ensures var es := StatusEmissions(rooms, PartnerIds(ms, u), u, isOnline);
      && (forall p :: UserRoom(p) in EmissionRooms(es) <==> p != u && exists i :: 0 <= i < |ms| && MatchBetween(ms[i], u, p))
      && (forall e :: e in es ==> e.event == (if isOnline then UserOnline(u) else UserOffline(u)))
  {
    var ps := PartnerIds(ms, u);
    var es := StatusEmissions(rooms, ps, u, isOnline);
    forall p ensures UserRoom(p) in EmissionRooms(es) <==> p in ps {
      if p in ps {
        var i :| 0 <= i < |ps| && ps[i] == p;
        assert es[i] in es;
      }
      if UserRoom(p) in EmissionRooms(es) {
        var e :| e in es && e.room == UserRoom(p);
        var j :| 0 <= j < |es| && es[j] == e;
        assert ps[j] == p;
      }
    }
  }

  /** A user whose every match is with itself, or who has none, notifies nobody. */
  lemma {:induction false} NoPartnerNoNotification(rooms: map<Room, set<SocketId>>, ms: seq<Match>, u: int, isOnline: bool)
    requires forall i :: 0 <= i < |ms| ==> !Involves(ms[i], u) || Other(ms[i], u) == u
    ensures StatusEmissions(rooms, PartnerIds(ms, u), u, isOnline) == []
  {
    if ms != [] {
      assert forall i :: 0 <= i < |ms[1..]| ==> ms[1..][i] == ms[i + 1];
      NoPartnerNoNotification(rooms, ms[1..], u, isOnline);
      assert PartnerIds(ms, u) == PartnerIds(ms[1..], u);
    }
  }

  // ---------------------------------------------------------------- chat delivery

  /** The `send_message` validation: a truthy match id and string content that is not blank after trimming. */
  predicate ValidSendData(matchId: Option<int>, content: Option<string>) {
    TruthyInt(matchId) && content.Some? && Trim(content.value) != []
  }

  // ---------------------------------------------------------------- the hub

  class SocketHub {
    /** `onlineUsers`: user id to the ids of that user's live sockets. */
    var onlineUsers: map<int, set<SocketId>>
    var rooms: map<Room, set<SocketId>>
    var emitted: seq<Emission>

    /** A user has an entry exactly while it has a live socket: no empty set is ever kept. */
    ghost predicate Valid()
      reads this
    {
      forall u :: u in onlineUsers ==> onlineUsers[u] != {}
    }

    predicate IsOnline(u: int)
      reads this
    {
      u in onlineUsers && onlineUsers[u] != {}
    }

    constructor ()
      ensures Valid() && onlineUsers == map[] && rooms == map[] && emitted == []
    {
      onlineUsers, rooms, emitted := map[], map[], [];
    }

    function SocketsOf(u: int): set<SocketId>
      reads this
    {
      if u in onlineUsers then onlineUsers[u] else {}
    }

    /** `notifyMatchesAboutStatus`: one emission per partner, in the order of the match rows. */
    method NotifyMatchesAboutStatus(db: Database, u: int, isOnline: bool)
      modifies this`emitted
      ensures emitted == old(emitted) + StatusEmissions(rooms, PartnerIds(db.matches, u), u, isOnline)
    {
      var partners := PartnerIds(db.matches, u);
      if |partners| == 0 {
        return;
      }
      var event := StatusEvent(u, isOnline);
      var i := 0;
      while i < |partners|
        invariant 0 <= i <= |partners|
        invariant emitted == old(emitted) + StatusEmissions(rooms, partners[..i], u, isOnline)
      {
        var room := UserRoom(partners[i]);
        emitted := emitted + [Emission(room, MembersOf(rooms, room), event)];
        assert StatusEmissions(rooms, partners[..i + 1], u, isOnline)
            == StatusEmissions(rooms, partners[..i], u, isOnline) + [Emission(room, MembersOf(rooms, room), event)];
        i := i + 1;
      }
      assert partners[..i] == partners;
    }

    /**
     * The `connection` handler. A socket without a user id is dropped before anything changes.
     * Otherwise the socket joins its user's set and personal room, and the partners are told the
     * user is online exactly when the user had no socket before.
     */
    method Connect(db: Database, sid: SocketId, user: Claims) returns (accepted: bool)
      requires Valid()
      modifies this
      ensures Valid()
      ensures accepted <==> user.id.Some?
      ensures !accepted ==> onlineUsers == old(onlineUsers) && rooms == old(rooms) && emitted == old(emitted)
      ensures accepted ==>
        var u := user.id.value;
        && onlineUsers == old(onlineUsers)[u := old(SocketsOf(u)) + {sid}]
        && rooms == JoinRoom(old(rooms), UserRoom(u), sid)
        && emitted == old(emitted) + (if old(SocketsOf(u)) == {} then StatusEmissions(rooms, PartnerIds(db.matches, u), u, true) else [])
      ensures forall m :: MembersOf(rooms, MatchRoom(m)) == MembersOf(old(rooms), MatchRoom(m))
    {
      if user.id.None? {
        return false;
      }
      var u := user.id.value;
      var wasOffline := u !in onlineUsers || onlineUsers[u] == {};
      var sockets := if u in onlineUsers then onlineUsers[u] else {};
      onlineUsers := onlineUsers[u := sockets + {sid}];
      rooms := JoinRoom(rooms, UserRoom(u), sid);
      if wasOffline {
        NotifyMatchesAboutStatus(db, u, true);
      }
      return true;
    }

    /**
     * The `disconnect` handler of a socket of user `u`: only that socket leaves the user's set;
     * when the set empties, the entry is deleted and the partners are told the user is offline.
     */
    method Disconnect(db: Database, sid: SocketId, u: int)
      requires Valid()
      modifies this`onlineUsers, this`emitted
      ensures Valid()
      ensures u !in old(onlineUsers) ==> onlineUsers == old(onlineUsers) && emitted == old(emitted)
      ensures u in old(onlineUsers) && old(onlineUsers)[u] - {sid} == {} ==>
        onlineUsers == old(onlineUsers) - {u} && emitted == old(emitted) + StatusEmissions(rooms, PartnerIds(db.matches, u), u, false)
      ensures u in old(onlineUsers) && old(onlineUsers)[u] - {sid} != {} ==>
        onlineUsers == old(onlineUsers)[u := old(onlineUsers)[u] - {sid}] && emitted == old(emitted)
      ensures forall v :: v != u ==> SocketsOf(v) == old(SocketsOf(v))
    {
      if u !in onlineUsers {
        return;
      }
      var remaining := onlineUsers[u] - {sid};
      if remaining == {} {
        onlineUsers := onlineUsers - {u};
        NotifyMatchesAboutStatus(db, u, false);
      } else {
        onlineUsers := onlineUsers[u := remaining];
      }
    }

    /** `join_match`: a falsy match id is ignored. */
    method JoinMatch(sid: SocketId, matchId: Option<int>)
      modifies this`rooms
      ensures !TruthyInt(matchId) ==> rooms == old(rooms)
      ensures TruthyInt(matchId) ==> rooms == JoinRoom(old(rooms), MatchRoom(matchId.value), sid)
    {
      if !TruthyInt(matchId) {
        return;
      }
      rooms := JoinRoom(rooms, MatchRoom(matchId.value), sid);
    }

    /** `leave_match`: a falsy match id is ignored. */
    method LeaveMatch(sid: SocketId, matchId: Option<int>)
      modifies this`rooms
      ensures !TruthyInt(matchId) ==> rooms == old(rooms)
      ensures TruthyInt(matchId) ==> rooms == LeaveRoom(old(rooms), MatchRoom(matchId.value), sid)
    {
      if !TruthyInt(matchId) {
        return;
      }
      rooms := LeaveRoom(rooms, MatchRoom(matchId.value), sid);
    }

    /**
     * `send_message` from a socket of user `sender`: validate, check membership, persist the
     * trimmed text, then broadcast the persisted row to the match's room. `now` is the
     * `createdAt` the store assigns.
     */
    method SendMessage(db: Database, sender: int, senderName: Option<string>, matchId: Option<int>, content: Option<string>, now: int)
      returns (result: SendResult)
      requires db.Valid()
      modifies db`messages, db`nextMessageId, this`emitted
      ensures db.Valid()
      ensures result == InvalidData <==> !ValidSendData(matchId, content)
      ensures result == NotMember <==> ValidSendData(matchId, content) && !IsMemberOf(old(db.matches), matchId.value, sender)
      ensures !result.Delivered? ==>
        db.messages == old(db.messages) && db.nextMessageId == old(db.nextMessageId) && emitted == old(emitted)
      ensures result.Delivered? ==>
        var m := result.message;
        && m == ChatMessage(old(db.nextMessageId), matchId.value, sender, Trim(content.value), now)
        && m.content != [] && Trim(m.content) == m.content
        && db.messages == old(db.messages) + [m]
        && db.nextMessageId == old(db.nextMessageId) + 1
        && emitted == old(emitted) + [Emission(MatchRoom(m.matchId), MembersOf(rooms, MatchRoom(m.matchId)),
                                               NewMessage(MessagePayload(m, SenderInfo(sender, senderName, FirstImageUrl(db.images, sender)))))]
    {
      if !ValidSendData(matchId, content) {
        return InvalidData;
      }
      var m := matchId.value;
      if !IsMemberOf(db.matches, m, sender) {
        return NotMember;
      }
      var message := Deliver(db, sender, senderName, m, Trim(content.value), now);
      TrimIdempotent(content.value);
      return Delivered(message);
    }

    /** `ChatMessage.create` with the text the caller has trimmed, then the `new_message` broadcast to the match's room. */
    method Deliver(db: Database, sender: int, senderName: Option<string>, matchId: int, text: string, now: int)
      returns (m: ChatMessage)
      requires db.Valid()
      modifies db`messages, db`nextMessageId, this`emitted
      ensures db.Valid()
      ensures m == ChatMessage(old(db.nextMessageId), matchId, sender, text, now)
      ensures db.messages == old(db.messages) + [m]
      ensures db.nextMessageId == old(db.nextMessageId) + 1
      ensures emitted == old(emitted) + [Emission(MatchRoom(matchId), MembersOf(rooms, MatchRoom(matchId)),
                                                  NewMessage(MessagePayload(m, SenderInfo(sender, senderName, FirstImageUrl(db.images, sender)))))]
    {
      m := ChatMessage(db.nextMessageId, matchId, sender, text, now);
      var payload := MessagePayload(m, SenderInfo(sender, senderName, FirstImageUrl(db.images, sender)));
      db.messages := db.messages + [m];
      db.nextMessageId := db.nextMessageId + 1;
      emitted := emitted + [Emission(MatchRoom(matchId), MembersOf(rooms, MatchRoom(matchId)), NewMessage(payload))];
    }
  }
}
