/**
 * The chat screen of the web client: who the current user is, how live and loaded messages are
 * merged into the per-match message lists, which match room the client asks the server to be in,
 * when a typed message is sent, and the one-line preview shown under each match.
 *
 * React state updates become the fields of `ChatSession`; the `setMessages` updater and the
 * preview expression are functions.
 */
module ChatClient {
  import opened Js
  import opened Models
  import opened ChatRoutes
  import SocketHandler

  // ---------------------------------------------------------------- the current user

  /** The `id` field of a decoded token payload. */
  datatype IdField = Undefined | Null | Num(n: int)

  /** `Number(id)`: `null` converts to 0. */
  function NumberOf(f: IdField): int
    requires !f.Undefined?
  {
    if f.Null? then 0 else f.n
  }

  /**
   * `getCurrentUserId`: the stored access token, decoded without verification by `decode`
   * (`None` when decoding throws). No token, a failed decode or a payload without `id` give null.
   */
  function GetCurrentUserId(token: Option<string>, decode: string -> Option<IdField>): (r: Option<int>)
    ensures r.None? <==> !TruthyText(token) || decode(token.value).None? || decode(token.value).value.Undefined?
    ensures r.Some? ==> decode(token.value) == Some(Num(r.value)) || (decode(token.value) == Some(Null) && r.value == 0)
  {
    if !TruthyText(token) then None
    else
      match decode(token.value)
      case None => None
      case Some(f) => if f.Undefined? then None else Some(NumberOf(f))
  }

  /** The mount effect: a falsy id (null or 0) is an authentication error, any other id is the user. */
  function MountUser(id: Option<int>): (user: Option<int>)
    ensures user.Some? <==> TruthyInt(id)
    ensures user.Some? ==> user == id && user.value != 0
  {
    if TruthyInt(id) then id else None
  }

  /** A token whose payload has `id: null` yields user id 0, which the mount effect rejects. */
  lemma {:induction false} NullIdIsAuthError(token: string, decode: string -> Option<IdField>)
    requires token != [] && decode(token) == Some(Null)
    ensures GetCurrentUserId(Some(token), decode) == Some(0)
    ensures MountUser(GetCurrentUserId(Some(token), decode)).None?
  {
  }

  /** A token carrying a non-zero numeric id signs that user in. */
  lemma {:induction false} NumericIdSignsIn(token: string, decode: string -> Option<IdField>, n: int)
    requires token != [] && decode(token) == Some(Num(n)) && n != 0
    ensures MountUser(GetCurrentUserId(Some(token), decode)) == Some(n)
  {
  }

  // ---------------------------------------------------------------- message lists

  datatype SenderType = Me | OtherUser

  /** A message as it arrives over the socket; any field may be missing. */
  datatype Incoming = Incoming(id: Option<int>, matchId: Option<int>, senderId: Option<int>, content: string)

  /** A message as the client keeps it: the server's fields and `senderType`. */
  datatype Shown = Shown(id: int, matchId: int, senderId: int, content: string, senderType: SenderType)

  /** `sender_id === userId ? 'me' : 'other'`. */
  function SenderTypeOf(senderId: int, userId: int): (t: SenderType)
    ensures t == Me <==> senderId == userId
  {
    if senderId == userId then Me else OtherUser
  }

  /** The guard of the `new_message` handler: a message with a truthy `match_id`, `sender_id` and `id`. */
  predicate WellFormed(message: Option<Incoming>) {
    message.Some? && TruthyInt(message.value.matchId) && TruthyInt(message.value.senderId) && TruthyInt(message.value.id)
  }

  function Format(m: Incoming, userId: int): (s: Shown)
    requires m.id.Some? && m.matchId.Some? && m.senderId.Some?
    ensures s.id == m.id.value && s.matchId == m.matchId.value && s.senderId == m.senderId.value && s.content == m.content
    ensures s.senderType == Me <==> m.senderId.value == userId
  {
    Shown(m.id.value, m.matchId.value, m.senderId.value, m.content, SenderTypeOf(m.senderId.value, userId))
  }

  /** `prevMessages[matchId] || []`. */
  function ListOf(messages: map<int, seq<Shown>>, matchId: int): seq<Shown> {
    if matchId in messages then messages[matchId] else []
  }

  predicate ContainsId(list: seq<Shown>, id: int) {
    exists i :: 0 <= i < |list| && list[i].id == id
  }

  /** Every match's list holds each message id at most once. */
  predicate DistinctIds(messages: map<int, seq<Shown>>) {
    forall m, i, j :: m in messages && 0 <= i < j < |messages[m]| ==> messages[m][i].id != messages[m][j].id
  }

  /**
   * The `setMessages` updater of the `new_message` handler: a malformed message, or one whose id is
   * already in its match's list, leaves the state as it is; otherwise the message is appended to
   * its match's list and no other list changes.
   */
  function MergeIncoming(prev: map<int, seq<Shown>>, message: Option<Incoming>, userId: int): (r: map<int, seq<Shown>>)
    ensures !WellFormed(message) ==> r == prev
    ensures WellFormed(message) ==> ContainsId(ListOf(r, message.value.matchId.value), message.value.id.value)
    ensures WellFormed(message) ==> forall k :: k != message.value.matchId.value ==> ListOf(r, k) == ListOf(prev, k)
    ensures WellFormed(message) && ContainsId(ListOf(prev, message.value.matchId.value), message.value.id.value) ==> r == prev
    ensures WellFormed(message) && !ContainsId(ListOf(prev, message.value.matchId.value), message.value.id.value) ==>
              r.Keys == prev.Keys + {message.value.matchId.value} &&
              ListOf(r, message.value.matchId.value) == ListOf(prev, message.value.matchId.value) + [Format(message.value, userId)]
  {
    if !WellFormed(message) then prev
    else
      var key := message.value.matchId.value;
      var current := ListOf(prev, key);
      if ContainsId(current, message.value.id.value) then prev
      else
        var shown := Format(message.value, userId);
        assert (current + [shown])[|current|] == shown;
        prev[key := current + [shown]]
  }

  /** Receiving the same message twice has the effect of receiving it once. */
  lemma {:induction false} MergeIdempotent(prev: map<int, seq<Shown>>, message: Option<Incoming>, userId: int)
    ensures MergeIncoming(MergeIncoming(prev, message, userId), message, userId) == MergeIncoming(prev, message, userId)
  {
  }

  /** The merge never puts a second copy of an id into a match's list. */
  lemma {:induction false} MergeKeepsIdsDistinct(prev: map<int, seq<Shown>>, message: Option<Incoming>, userId: int)
    requires DistinctIds(prev)
    ensures DistinctIds(MergeIncoming(prev, message, userId))
  {
    var r: map<int, seq<Shown>> := MergeIncoming(prev, message, userId);
    if WellFormed(message) && !ContainsId(ListOf(prev, message.value.matchId.value), message.value.id.value) {
      var key := message.value.matchId.value;
      var old_ := ListOf(prev, key);
      forall m: int, i: int, j: int | m in r && 0 <= i < j < |r[m]|
        ensures r[m][i].id != r[m][j].id
      {
        if m == key {
          assert r[m] == old_ + [Format(message.value, userId)];
          if j == |old_| {
            assert r[m][i] == old_[i];
          } else {
            assert key in prev;
          }
        } else {
          assert r[m] == ListOf(r, m) == ListOf(prev, m);
        }
      }
    }
  }

  /** The history for a match, as the client formats it after loading it. */
  function FormatHistory(history: seq<HistoryEntry>, userId: int): (r: seq<Shown>)
    ensures |r| == |history|
    ensures forall i :: 0 <= i < |r| ==>
              r[i].id == history[i].message.id && r[i].content == history[i].message.content &&
              (r[i].senderType == Me <==> history[i].message.senderId == userId)
  {
    seq(|history|, i requires 0 <= i < |history| =>
      var m := history[i].message;
      Shown(m.id, m.matchId, m.senderId, m.content, SenderTypeOf(m.senderId, userId)))
  }

  // ---------------------------------------------------------------- the preview line

  const PreviewLength := 25

  /**
   * The last-message line of a match: "You: " when the last message is the user's own, then its
   * first 25 characters and "..." when it is longer; "No messages yet" for a missing or empty list.
   */
  function Preview(list: Option<seq<Shown>>): (r: string)
    ensures list.None? || list.value == [] ==> r == "No messages yet"
    ensures list.Some? && list.value != [] ==>
              var last := list.value[|list.value| - 1];
              var you := if last.senderType == Me then "You: " else "";
              |you| <= |r| && r[..|you|] == you &&
              (|last.content| <= PreviewLength ==> r[|you|..] == last.content) &&
              (|last.content| > PreviewLength ==> r[|you|..] == last.content[..PreviewLength] + "...")
  {
    if list.None? || list.value == [] then "No messages yet"
    else
      var last := list.value[|list.value| - 1];
      var c := last.content;
      (if last.senderType == Me then "You: " else "")
        + c[..if |c| < PreviewLength then |c| else PreviewLength]
        + (if |c| > PreviewLength then "..." else "")
  }

  /** A preview is never longer than 33 characters, and a message of at most 25 characters is shown whole. */
  lemma {:induction false} PreviewBounds(list: seq<Shown>)
    requires list != []
    ensures |Preview(Some(list))| <= 5 + PreviewLength + 3
    ensures |list[|list| - 1].content| <= PreviewLength ==>
              Preview(Some(list)) == (if list[|list| - 1].senderType == Me then "You: " else "") + list[|list| - 1].content
  {
    var last := list[|list| - 1];
    var you := if last.senderType == Me then "You: " else "";
    var r := Preview(Some(list));
    if |last.content| <= PreviewLength {
      assert r == r[..|you|] + r[|you|..];
    } else {
      assert |r| == |you| + |r[|you|..]|;
    }
  }

  // ---------------------------------------------------------------- the session

  /** What the client emits on its socket. */
  datatype ClientEvent = JoinMatch(matchId: int) | LeaveMatch(matchId: int) | SendMessage(matchId: int, content: string)

  /** The rooms the client is in after emitting `e`: a join adds the room, a leave removes it. */
  function AfterEvent(rooms: set<int>, e: ClientEvent): set<int> {
    match e
    case JoinMatch(id) => rooms + {id}
    case LeaveMatch(id) => rooms - {id}
    case SendMessage(_, _) => rooms
  }

  /** The match rooms the client has asked to be in and not asked to leave since. */
  function JoinedRooms(events: seq<ClientEvent>): set<int>
    decreases |events|
  {
    if events == [] then {} else AfterEvent(JoinedRooms(events[..|events| - 1]), events[|events| - 1])
  }

  lemma {:induction false} JoinedRoomsAppend(events: seq<ClientEvent>, e: ClientEvent)
    ensures JoinedRooms(events + [e]) == AfterEvent(JoinedRooms(events), e)
  {
    assert (events + [e])[..|events|] == events;
  }

  /** The socket as the send handler sees it: absent, or present and connected or not. */
  datatype SocketState = NoSocket | Socket(connected: bool)

  /** The guard of the room-switching effect: a selected partner with a truthy match id, a socket and a user. */
  predicate CanSwitch(partner: Option<MatchSummary>, socket: SocketState, userId: Option<int>) {
    partner.Some? && partner.value.matchId != 0 && socket.Socket? && TruthyInt(userId)
  }

  /** The guard of `handleSendMessage`. */
  predicate CanSend(draft: string, partner: Option<MatchSummary>, socket: SocketState) {
    Trim(draft) != [] && partner.Some? && socket == Socket(true) && partner.value.matchId != 0
  }

  class ChatSession {
    /** `currentMatchIdRef.current`: the match whose room the client last joined, or null. */
    var currentMatchId: Option<int>
    /** `messages`: match id to that match's messages. */
    var messages: map<int, seq<Shown>>
    /** `newMessage`: the text in the input box. */
    var draft: string
    /** Everything emitted on the socket, oldest first. */
    var emitted: seq<ClientEvent>

    /** The current match, when there is one, is a truthy id whose room the client has joined. */
    ghost predicate Valid()
      reads this
    {
      currentMatchId.Some? ==> currentMatchId.value != 0 && currentMatchId.value in JoinedRooms(emitted)
    }

    constructor()
      ensures Valid()
      ensures currentMatchId == None && messages == map[] && draft == [] && emitted == []
    {
      currentMatchId := None;
      messages := map[];
      draft := [];
      emitted := [];
    }

    /**
     * The room-switching effect after a partner is selected: leave the previous room when there was
     * one and it is another match, join the selected match's room when it changed. Returns whether
     * the history must be loaded (no list for that match yet).
     */
    method SelectPartner(partner: Option<MatchSummary>, socket: SocketState, userId: Option<int>) returns (loadHistory: bool)
      requires Valid()
      modifies this`currentMatchId, this`emitted
      ensures Valid()
      ensures !CanSwitch(partner, socket, userId) ==> currentMatchId == old(currentMatchId) && emitted == old(emitted) && !loadHistory
      ensures CanSwitch(partner, socket, userId) ==>
                var m := partner.value.matchId;
                && currentMatchId == Some(m)
                && emitted == old(emitted)
                     + (if old(currentMatchId).Some? && old(currentMatchId) != Some(m) then [LeaveMatch(old(currentMatchId).value)] else [])
                     + (if old(currentMatchId) != Some(m) then [JoinMatch(m)] else [])
                && (loadHistory <==> m !in messages)
      ensures CanSwitch(partner, socket, userId) && old(currentMatchId).Some? && old(currentMatchId) != currentMatchId ==>
                old(currentMatchId).value !in JoinedRooms(emitted)
    {
      loadHistory := false;
      if !CanSwitch(partner, socket, userId) {
        return;
      }
      var m := partner.value.matchId;
      var previous := currentMatchId;
      if previous.Some? && previous.value != 0 && previous.value != m {
        JoinedRoomsAppend(emitted, LeaveMatch(previous.value));
        emitted := emitted + [LeaveMatch(previous.value)];
      }
      if previous != Some(m) {
        JoinedRoomsAppend(emitted, JoinMatch(m));
        emitted := emitted + [JoinMatch(m)];
        currentMatchId := Some(m);
      }
      loadHistory := m !in messages;
    }

    /** `handleGoBackToList`: forgets the current match without leaving its room. */
    method GoBackToList()
      requires Valid()
      modifies this`currentMatchId
      ensures Valid()
      ensures currentMatchId == None
    {
      currentMatchId := None;
    }

    /** The `new_message` handler. */
    method ReceiveMessage(message: Option<Incoming>, userId: int)
      modifies this`messages
      ensures messages == MergeIncoming(old(messages), message, userId)
    {
      messages := MergeIncoming(messages, message, userId);
    }

    /** A loaded history replaces the match's list. */
    method ReceiveHistory(matchId: int, history: seq<HistoryEntry>, userId: int)
      modifies this`messages
      ensures messages == old(messages)[matchId := FormatHistory(history, userId)]
    {
      messages := messages[matchId := FormatHistory(history, userId)];
    }

    /**
     * `handleSendMessage`: with non-blank input, a selected match and a connected socket, emits the
     * trimmed text for that match and clears the input; otherwise does nothing.
     */
    method Send(partner: Option<MatchSummary>, socket: SocketState) returns (sent: bool)
      requires Valid()
      modifies this`emitted, this`draft
      ensures Valid()
      ensures sent <==> CanSend(old(draft), partner, socket)
      ensures !sent ==> emitted == old(emitted) && draft == old(draft)
      ensures sent ==> emitted == old(emitted) + [SendMessage(partner.value.matchId, Trim(old(draft)))] && draft == []
    {
      sent := CanSend(draft, partner, socket);
      if sent {
        var event := SendMessage(partner.value.matchId, Trim(draft));
        JoinedRoomsAppend(emitted, event);
        emitted := emitted + [event];
        draft := [];
      }
    }
  }

  /** What the client sends always passes the server's `send_message` validation. */
  lemma {:induction false} SentMessagePassesServerValidation(draft: string, partner: Option<MatchSummary>, socket: SocketState)
    requires CanSend(draft, partner, socket)
    ensures SocketHandler.ValidSendData(Some(partner.value.matchId), Some(Trim(draft)))
  {
    TrimIdempotent(draft);
  }

  /** After going back to the list, selecting another match joins it but never leaves the old room. */
  method BackThenSwitchKeepsOldRoom(s: ChatSession, a: MatchSummary, b: MatchSummary)
    requires s.Valid() && s.currentMatchId == None && s.emitted == []
    requires a.matchId != 0 && b.matchId != 0 && a.matchId != b.matchId
    modifies s`currentMatchId, s`emitted
    ensures a.matchId in JoinedRooms(s.emitted) && b.matchId in JoinedRooms(s.emitted)
  {
    var _ := s.SelectPartner(Some(a), Socket(true), Some(1));
    assert s.emitted == [] + [] + [JoinMatch(a.matchId)];
    s.GoBackToList();
    var _ := s.SelectPartner(Some(b), Socket(true), Some(1));
    assert s.emitted == [JoinMatch(a.matchId)] + [] + [JoinMatch(b.matchId)];
    JoinedRoomsAppend([], JoinMatch(a.matchId));
    JoinedRoomsAppend([JoinMatch(a.matchId)], JoinMatch(b.matchId));
  }
}
