/** The relational store the routes and the socket handler share: one object holding every table. */
module Store {
  import opened Models

  /**
   * The tables, each in insertion order, and the next auto-increment id of each. Route handlers
   * name in their `modifies` clauses exactly the tables they write.
   */
  class Database {
    var users: map<int, User>
    var images: seq<UserImage>
    var swipes: seq<Swipe>
    var matches: seq<Match>
    var messages: seq<ChatMessage>
    var nextUserId: int
    var nextImageId: int
    var nextSwipeId: int
    var nextMatchId: int
    var nextMessageId: int

    /**
     * Every key of `users` is the id of its row, no auto-increment counter has been handed out yet,
     * and the image rows are in id order.
     */
    ghost predicate Valid()
      reads this
    {
      && (forall id :: id in users ==> users[id].id == id && id < nextUserId)
      && (forall img :: img in images ==> img.id < nextImageId)
      && IdsAscending(images)
      && (forall i :: 0 <= i < |swipes| ==> swipes[i].id < nextSwipeId)
      && (forall i :: 0 <= i < |matches| ==> matches[i].id < nextMatchId)
      && (forall i :: 0 <= i < |messages| ==> messages[i].id < nextMessageId)
    }

    /** `Swipe.create`: the row takes the next swipe id and is appended to the table. */
    method CreateSwipe(swiperId: int, swipedId: int, direction: Direction) returns (row: Swipe)
      requires Valid()
      modifies `swipes, `nextSwipeId
      ensures Valid()
      ensures row == Swipe(old(nextSwipeId), swiperId, swipedId, direction)
      ensures swipes == old(swipes) + [row]
      ensures nextSwipeId == old(nextSwipeId) + 1
    {
      row := Swipe(nextSwipeId, swiperId, swipedId, direction);
      swipes := swipes + [row];
      nextSwipeId := nextSwipeId + 1;
    }

    /** `Match.create`: the row takes the next match id and is appended to the table. */
    method CreateMatch(user1Id: int, user2Id: int) returns (row: Match)
      requires Valid()
      modifies `matches, `nextMatchId
      ensures Valid()
      ensures row == Match(old(nextMatchId), user1Id, user2Id)
      ensures matches == old(matches) + [row]
      ensures nextMatchId == old(nextMatchId) + 1
    {
      row := Match(nextMatchId, user1Id, user2Id);
      matches := matches + [row];
      nextMatchId := nextMatchId + 1;
    }

    constructor ()
      ensures Valid()
      ensures users == map[] && images == [] && swipes == [] && matches == [] && messages == []
    {
      users, images, swipes, matches, messages := map[], [], [], [], [];
      nextUserId, nextImageId, nextSwipeId, nextMatchId, nextMessageId := 1, 1, 1, 1, 1;
    }
  }
}
