/** The rows of the Sequelize models the core reads and writes, and the lookups shared by several routes. */
module Models {
  import opened Js
  import opened Dates

  /** `Swipe.direction`, validated by the model to be one of 'left' and 'right'. */
  datatype Direction = Left | Right

  function ParseDirection(s: string): (d: Option<Direction>)
    ensures d == Some(Left) <==> s == "left"
    ensures d == Some(Right) <==> s == "right"
  {
    if s == "left" then Some(Left) else if s == "right" then Some(Right) else None
  }

  datatype Swipe = Swipe(id: int, swiperId: int, swipedId: int, direction: Direction)

  /** A match row; the pair it stands for is unordered, `user1Id` being whoever swiped second. */
  datatype Match = Match(id: int, user1Id: int, user2Id: int)

  datatype ChatMessage = ChatMessage(id: int, matchId: int, senderId: int, content: string, createdAt: int)

  datatype UserImage = UserImage(id: int, userId: int, imgUrl: string)

  datatype User = User(
    id: int, username: string, email: string, passwordHash: string, dob: Date,
    bio: string, sex: string, searchedSex: string, minAge: int, maxAge: int)

  /** `user1_id = u OR user2_id = u`. */
  predicate Involves(m: Match, u: int) {
    m.user1Id == u || m.user2Id == u
  }

  /** A match row for the unordered pair `{a, b}`. */
  predicate MatchBetween(m: Match, a: int, b: int) {
    (m.user1Id == a && m.user2Id == b) || (m.user1Id == b && m.user2Id == a)
  }

  /** The other party of a match as the routes compute it: `user1_id === u ? user2_id : user1_id`. */
  function Other(m: Match, u: int): (p: int)
    requires Involves(m, u)
    ensures Involves(m, p)
    ensures p == u ==> m.user1Id == m.user2Id
    ensures {p, u} == {m.user1Id, m.user2Id}
  {
    if m.user1Id == u then m.user2Id else m.user1Id
  }

  /** `Match.findOne({ where: { id: matchId, [Op.or]: [{ user1_id: u }, { user2_id: u }] } })` finds a row. */
  predicate IsMemberOf(ms: seq<Match>, matchId: int, u: int) {
    exists i :: 0 <= i < |ms| && ms[i].id == matchId && Involves(ms[i], u)
  }

  /** The matches of `ms` involving `u`, in table order (`Match.findAll` with the OR condition). */
  function MatchesOf(ms: seq<Match>, u: int): (r: seq<Match>)
    ensures forall m :: m in r <==> m in ms && Involves(m, u)
    ensures |r| <= |ms|
  {
    if ms == [] then []
    else (if Involves(ms[0], u) then [ms[0]] else []) + MatchesOf(ms[1..], u)
  }

  /** The `imgUrl`s of user `u`'s image rows, in table order. */
  function ImageUrlsOf(images: seq<UserImage>, u: int): (r: seq<string>)
    ensures |r| <= |images|
    ensures forall url :: url in r <==> exists i :: 0 <= i < |images| && images[i].userId == u && images[i].imgUrl == url
  {
    if images == [] then []
    else
      assert forall i :: 1 <= i < |images| ==> images[i] == images[1..][i - 1];
      (if images[0].userId == u then [images[0].imgUrl] else []) + ImageUrlsOf(images[1..], u)
  }

  /** The first image row of user `u` in table order, as `UserImages.findOne({ where: { userId } })` returns it. */
  function FirstImageUrl(images: seq<UserImage>, u: int): (r: Option<string>)
    ensures r.None? <==> forall i :: 0 <= i < |images| ==> images[i].userId != u
    ensures r.Some? ==> exists i :: 0 <= i < |images| && images[i].userId == u && images[i].imgUrl == r.value
                                  && forall j :: 0 <= j < i ==> images[j].userId != u
  {
    if images == [] then None
    else if images[0].userId == u then Some(images[0].imgUrl)
    else
      var r := FirstImageUrl(images[1..], u);
      assert forall i :: 1 <= i < |images| ==> images[i] == images[1..][i - 1];
      if r.Some? then
        var i :| 0 <= i < |images[1..]| && images[1..][i].userId == u && images[1..][i].imgUrl == r.value
                 && forall j :: 0 <= j < i ==> images[1..][j].userId != u;
        assert forall j :: 0 <= j < i + 1 ==> images[j].userId != u by {
          forall j | 0 <= j < i + 1 ensures images[j].userId != u {
            if j > 0 { assert images[j] == images[1..][j - 1]; }
          }
        }
        r
      else r
  }

  /** Image rows in ascending id order, as auto-increment ids make them when rows are only appended and deleted. */
  predicate IdsAscending(images: seq<UserImage>) {
    forall i, j :: 0 <= i < j < |images| ==> images[i].id < images[j].id
  }

  /**
   * In a table whose ids ascend, the first row of the user in table order is the user's row with the
   * lowest id, which is what `findOne` with `order: [['id', 'ASC']]` picks.
   */
  lemma {:induction false} FirstImageUrlIsLowestId(images: seq<UserImage>, u: int)
    requires IdsAscending(images)
    ensures FirstImageUrl(images, u).Some? ==>
      exists i :: 0 <= i < |images| && images[i].userId == u && images[i].imgUrl == FirstImageUrl(images, u).value
        && forall j :: 0 <= j < |images| && images[j].userId == u ==> images[i].id <= images[j].id
  {
    var r := FirstImageUrl(images, u);
    if r.Some? {
      var i :| 0 <= i < |images| && images[i].userId == u && images[i].imgUrl == r.value
               && forall j :: 0 <= j < i ==> images[j].userId != u;
      forall j | 0 <= j < |images| && images[j].userId == u
        ensures images[i].id <= images[j].id
      {
        if j != i {
          assert i < j;
        }
      }
    }
  }

  /** The single-image lookups agree with the full list: the first image is the head of the list, null when it is empty. */
  lemma {:induction false} FirstImageUrlIsHead(images: seq<UserImage>, u: int)
    ensures FirstImageUrl(images, u) == (if ImageUrlsOf(images, u) == [] then None else Some(ImageUrlsOf(images, u)[0]))
  {
    if images != [] && images[0].userId != u {
      FirstImageUrlIsHead(images[1..], u);
    }
  }
}
