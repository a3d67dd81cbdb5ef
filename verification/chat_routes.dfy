/**
 * The two read routes of the chat list: `GET /matches` (one entry per match, showing the other
 * party) and `GET /matches/:matchId/messages` (the history of one match, for its members only,
 * oldest first). Both read the tables and change nothing, so they are functions of the table contents.
 */
module ChatRoutes {
  import opened Js
  import opened Models

  datatype Response<T> = Ok(body: T) | Forbidden | ServerError

  /** An element of the `/matches` answer. */
  datatype MatchSummary = MatchSummary(matchId: int, userId: int, username: string, profileImageUrl: Option<string>)

  /** An element of the history answer: the message row and its sender's display data. */
  datatype HistoryEntry = HistoryEntry(message: ChatMessage, senderId: int, senderUsername: string, profileImageUrl: Option<string>)

  // ---------------------------------------------------------------- GET /matches

  /**
   * The per-match projection: the other party as `user1_id === userId ? user2 : user1` picks it,
   * with its first image or null. A partner row that the join did not find (`otherUser.id` on null)
   * fails the whole request.
   */
  function Summaries(ms: seq<Match>, users: map<int, User>, images: seq<UserImage>, u: int): (r: Option<seq<MatchSummary>>)
    requires forall i :: 0 <= i < |ms| ==> Involves(ms[i], u)
    ensures r.None? <==> exists i :: 0 <= i < |ms| && Other(ms[i], u) !in users
    ensures r.Some? ==> |r.value| == |ms| && forall i :: 0 <= i < |ms| ==>
      var p := Other(ms[i], u);
      && r.value[i].matchId == ms[i].id
      && r.value[i].userId == (if ms[i].user1Id == u then ms[i].user2Id else ms[i].user1Id)
      && r.value[i].username == users[p].username
      && r.value[i].profileImageUrl == FirstImageUrl(images, p)
  {
    if ms == [] then Some([])
    else
      var p := Other(ms[0], u);
      var rest := Summaries(ms[1..], users, images, u);
      assert forall i :: 1 <= i < |ms| ==> ms[i] == ms[1..][i - 1];
      if p !in users then None
      else if rest.None? then None
      else Some([MatchSummary(ms[0].id, p, users[p].username, FirstImageUrl(images, p))] + rest.value)
  }

  function ListMatches(matches: seq<Match>, users: map<int, User>, images: seq<UserImage>, u: int): (r: Response<seq<MatchSummary>>)
    ensures !r.Forbidden?
    ensures MatchesOf(matches, u) == [] ==> r == Ok([])
  {
    var mine := MatchesOf(matches, u);
    if mine == [] then Ok([])
    else match Summaries(mine, users, images, u)
      case None => ServerError
      case Some(entries) => Ok(entries)
  }

  /** `/matches` fails exactly when the partner row of some match of the caller is missing. */
  lemma {:induction false} ListMatchesFails(matches: seq<Match>, users: map<int, User>, images: seq<UserImage>, u: int)
    ensures ListMatches(matches, users, images, u).ServerError?
        <==> exists m :: m in matches && Involves(m, u) && Other(m, u) !in users
  {
    var mine := MatchesOf(matches, u);
    if exists m :: m in matches && Involves(m, u) && Other(m, u) !in users {
      var m :| m in matches && Involves(m, u) && Other(m, u) !in users;
      assert m in mine;
      var i :| 0 <= i < |mine| && mine[i] == m;
      assert Summaries(mine, users, images, u).None?;
    }
    if Summaries(mine, users, images, u).None? {
      var i :| 0 <= i < |mine| && Other(mine[i], u) !in users;
      assert mine[i] in mine;
    }
  }

  /**
   * An answered `/matches` request has one entry per match of the caller, in table order; every
   * entry names a match row of the caller, and its `userId` is the other party of that row, which is
   * the caller only for a match of the caller with itself.
   */
  lemma {:induction false} ListMatchesEntries(matches: seq<Match>, users: map<int, User>, images: seq<UserImage>, u: int)
    ensures var r := ListMatches(matches, users, images, u);
      r.Ok? ==>
        && |r.body| == |MatchesOf(matches, u)|
        && forall i :: 0 <= i < |r.body| ==>
             exists m :: m in matches && m.id == r.body[i].matchId && MatchBetween(m, u, r.body[i].userId)
                         && (r.body[i].userId == u ==> m.user1Id == m.user2Id)
  {
    var mine := MatchesOf(matches, u);
    var r := ListMatches(matches, users, images, u);
    if r.Ok? && mine != [] {
      var entries := Summaries(mine, users, images, u).value;
      assert r.body == entries;
      forall i | 0 <= i < |entries|
        ensures exists m :: m in matches && m.id == entries[i].matchId && MatchBetween(m, u, entries[i].userId)
                            && (entries[i].userId == u ==> m.user1Id == m.user2Id)
      {
        assert mine[i] in mine;
        assert entries[i].userId == Other(mine[i], u);
      }
    }
  }

  // ---------------------------------------------------------------- GET /matches/:matchId/messages

  /** The rows of one match, in table order: `where: { match_id: matchId }`. */
  function MessagesOfMatch(ms: seq<ChatMessage>, matchId: int): (r: seq<ChatMessage>)
    ensures forall i :: 0 <= i < |r| ==> r[i].matchId == matchId
    ensures forall m :: multiset(r)[m] == (if m.matchId == matchId then multiset(ms)[m] else 0)
  {
    if ms == [] then []
    else
      assert ms == [ms[0]] + ms[1..];
      (if ms[0].matchId == matchId then [ms[0]] else []) + MessagesOfMatch(ms[1..], matchId)
  }

  predicate SortedByCreatedAt(s: seq<ChatMessage>) {
    forall i, j :: 0 <= i < j < |s| ==> s[i].createdAt <= s[j].createdAt
  }

  /** Places `x` after every element of `t` created at or before it. */
  function InsertByCreatedAt(t: seq<ChatMessage>, x: ChatMessage): (r: seq<ChatMessage>)
    ensures multiset(r) == multiset(t) + multiset{x}
    ensures SortedByCreatedAt(t) ==> SortedByCreatedAt(r)
  {
    if t == [] then [x]
    else
      var last := t[|t| - 1];
      var init := t[..|t| - 1];
      assert t == init + [last];
      if last.createdAt <= x.createdAt then t + [x]
      else
        var r' := InsertByCreatedAt(init, x);
        if SortedByCreatedAt(t) then
          CreatedNoLaterThan(r', init, x, last.createdAt);
          r' + [last]
        else
          r' + [last]
  }

  /** Every element of a sequence holding `t` and `x` is created no later than a bound they all respect. */
  lemma {:induction false} CreatedNoLaterThan(r: seq<ChatMessage>, t: seq<ChatMessage>, x: ChatMessage, bound: int)
    requires multiset(r) == multiset(t) + multiset{x}
    requires forall k :: 0 <= k < |t| ==> t[k].createdAt <= bound
    requires x.createdAt <= bound
    ensures forall i :: 0 <= i < |r| ==> r[i].createdAt <= bound
  {
    forall i | 0 <= i < |r| ensures r[i].createdAt <= bound {
      assert r[i] in multiset(r);
      if r[i] != x {
        assert r[i] in multiset(t);
        var k :| 0 <= k < |t| && t[k] == r[i];
      }
    }
  }

  /**
   * `order: [['createdAt', 'ASC']]`. The query leaves the order of rows created at the same instant
   * open; the model keeps them in table order.
   */
  function SortByCreatedAt(s: seq<ChatMessage>): (r: seq<ChatMessage>)
    ensures SortedByCreatedAt(r)
    ensures multiset(r) == multiset(s)
  {
    if s == [] then []
    else
      assert s == s[..|s| - 1] + [s[|s| - 1]];
      InsertByCreatedAt(SortByCreatedAt(s[..|s| - 1]), s[|s| - 1])
  }

  /** The sender projection: `sender.images[0].imgUrl` or null; a sender row that is missing fails the request. */
  function HistoryEntries(ms: seq<ChatMessage>, users: map<int, User>, images: seq<UserImage>): (r: Option<seq<HistoryEntry>>)
    ensures r.None? <==> exists i :: 0 <= i < |ms| && ms[i].senderId !in users
    ensures r.Some? ==> |r.value| == |ms| && forall i :: 0 <= i < |ms| ==>
      r.value[i] == HistoryEntry(ms[i], ms[i].senderId, users[ms[i].senderId].username, FirstImageUrl(images, ms[i].senderId))
  {
    if ms == [] then Some([])
    else
      var rest := HistoryEntries(ms[1..], users, images);
      assert forall i :: 1 <= i < |ms| ==> ms[i] == ms[1..][i - 1];
      if ms[0].senderId !in users then None
      else if rest.None? then None
      else Some([HistoryEntry(ms[0], ms[0].senderId, users[ms[0].senderId].username, FirstImageUrl(images, ms[0].senderId))] + rest.value)
  }

  function MatchMessages(matches: seq<Match>, messages: seq<ChatMessage>, users: map<int, User>, images: seq<UserImage>,
                         u: int, matchId: int): (r: Response<seq<HistoryEntry>>)
    ensures r == Forbidden <==> !IsMemberOf(matches, matchId, u)
  {
    if !IsMemberOf(matches, matchId, u) then Forbidden
    else match HistoryEntries(SortByCreatedAt(MessagesOfMatch(messages, matchId)), users, images)
      case None => ServerError
      case Some(entries) => Ok(entries)
  }

  /** The message rows of a history answer, without the sender projection. */
  function RowsOf(body: seq<HistoryEntry>): seq<ChatMessage> {
    seq(|body|, i requires 0 <= i < |body| => body[i].message)
  }

  /**
   * An answered history request is, as a multiset, exactly the rows of the requested match, oldest
   * first, each with its sender's first image or null.
   */
  lemma {:induction false} MatchMessagesContents(matches: seq<Match>, messages: seq<ChatMessage>, users: map<int, User>, images: seq<UserImage>,
                              u: int, matchId: int)
    ensures var r := MatchMessages(matches, messages, users, images, u, matchId);
      r.Ok? ==>
        var rows := RowsOf(r.body);
        && IsMemberOf(matches, matchId, u)
        && (forall m :: multiset(rows)[m] == (if m.matchId == matchId then multiset(messages)[m] else 0))
        && SortedByCreatedAt(rows)
        && (forall i :: 0 <= i < |r.body| ==> r.body[i].profileImageUrl == FirstImageUrl(images, r.body[i].message.senderId))
  {
    var r := MatchMessages(matches, messages, users, images, u, matchId);
    if r.Ok? {
      var sorted := SortByCreatedAt(MessagesOfMatch(messages, matchId));
      assert RowsOf(r.body) == sorted;
    }
  }
}
