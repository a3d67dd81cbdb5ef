/**
 * `POST /swipe`: record a one-directional swipe, detect a reciprocal right swipe, and turn it into
 * a match row while deleting the pair's swipes. One call is one atomic step of the model.
 */
module SwipeRoute {
  import opened Js
  import opened Models
  import opened Store

  datatype SwipeOutcome = Recorded | MatchCreated(created: Match) | AlreadyMatched | ServerError

  /** The JSON `message` of the response. */
  function ResponseMessage(o: SwipeOutcome): string {
    match o
    case Recorded => "Swipe recorded"
    case MatchCreated(_) => "Match created!"
    case AlreadyMatched => "Match already exists"
    case ServerError => "Error recording swipe"
  }

  /** A swipe between `a` and `b`, in either direction. */
  predicate SwipeBetween(s: Swipe, a: int, b: int) {
    (s.swiperId == a && s.swipedId == b) || (s.swiperId == b && s.swipedId == a)
  }

  /** `Swipe.findOne({ where: { swiper_id: swiped, swiped_id: swiper, direction: 'right' } })` finds a row. */
  predicate HasReverseRight(swipes: seq<Swipe>, swiper: int, swiped: int) {
    exists i :: 0 <= i < |swipes| && swipes[i].swiperId == swiped && swipes[i].swipedId == swiper && swipes[i].direction == Right
  }

  /** The existence check of `Match.findOne`, which looks for the pair in both orders. */
  predicate PairMatched(ms: seq<Match>, a: int, b: int) {
    exists i :: 0 <= i < |ms| && MatchBetween(ms[i], a, b)
  }

  /** The invariant the route is meant to keep: no two match rows stand for the same unordered pair. */
  predicate UniquePairs(ms: seq<Match>) {
    forall i, j :: 0 <= i < j < |ms| ==> !MatchBetween(ms[j], ms[i].user1Id, ms[i].user2Id)
  }

  /** `Swipe.destroy` of every row between `a` and `b`, in both directions; the other rows keep their order. */
  function RemovePair(swipes: seq<Swipe>, a: int, b: int): (r: seq<Swipe>)
    ensures forall s :: s in r <==> s in swipes && !SwipeBetween(s, a, b)
    ensures |r| <= |swipes|
  {
    if swipes == [] then []
    else (if SwipeBetween(swipes[0], a, b) then [] else [swipes[0]]) + RemovePair(swipes[1..], a, b)
  }

  /** Deleting the pair's swipes from two tables one after the other is deleting them from the whole: order is kept. */
  lemma {:induction false} RemovePairAppend(s: seq<Swipe>, t: seq<Swipe>, a: int, b: int)
    ensures RemovePair(s + t, a, b) == RemovePair(s, a, b) + RemovePair(t, a, b)
  {
    if s != [] {
      assert (s + t)[1..] == s[1..] + t;
      RemovePairAppend(s[1..], t, a, b);
    } else {
      assert s + t == t;
    }
  }

  /** Appending a match for a pair that has none keeps the pairs unique. */
  lemma {:induction false} MatchCreationKeepsPairsUnique(ms: seq<Match>, m: Match)
    requires UniquePairs(ms)
    requires !PairMatched(ms, m.user1Id, m.user2Id)
    ensures UniquePairs(ms + [m])
  {
    var ms' := ms + [m];
    forall i, j | 0 <= i < j < |ms'| ensures !MatchBetween(ms'[j], ms'[i].user1Id, ms'[i].user2Id) {
      if j == |ms| {
        assert !MatchBetween(ms[i], m.user1Id, m.user2Id);
      } else {
        assert ms'[i] == ms[i] && ms'[j] == ms[j];
      }
    }
  }

  /** How many rows stand for the pair `{a, b}`. */
  function CountPair(ms: seq<Match>, a: int, b: int): nat {
    if ms == [] then 0 else (if MatchBetween(ms[0], a, b) then 1 else 0) + CountPair(ms[1..], a, b)
  }

  lemma {:induction false} CountPairZero(ms: seq<Match>, a: int, b: int)
    requires !PairMatched(ms, a, b)
    ensures CountPair(ms, a, b) == 0
  {
    if ms != [] {
      forall i | 0 <= i < |ms[1..]| ensures !MatchBetween(ms[1..][i], a, b) {
        assert ms[1..][i] == ms[i + 1];
      }
      CountPairZero(ms[1..], a, b);
    }
  }

  /** Under the invariant, a matched pair has exactly one match row. */
  lemma {:induction false} UniquePairsCountOne(ms: seq<Match>, a: int, b: int)
    requires UniquePairs(ms)
    requires PairMatched(ms, a, b)
    ensures CountPair(ms, a, b) == 1
  {
    var rest := ms[1..];
    assert UniquePairs(rest) by {
      forall i, j | 0 <= i < j < |rest| ensures !MatchBetween(rest[j], rest[i].user1Id, rest[i].user2Id) {
        assert rest[i] == ms[i + 1] && rest[j] == ms[j + 1];
      }
    }
    if MatchBetween(ms[0], a, b) {
      forall j | 0 <= j < |rest| ensures !MatchBetween(rest[j], a, b) {
        assert rest[j] == ms[j + 1];
        assert !MatchBetween(ms[j + 1], ms[0].user1Id, ms[0].user2Id);
      }
      CountPairZero(rest, a, b);
    } else {
      var i :| 0 <= i < |ms| && MatchBetween(ms[i], a, b);
      assert MatchBetween(rest[i - 1], a, b);
      UniquePairsCountOne(rest, a, b);
    }
  }

  /**
   * `Swipe.create` succeeds: the swiped id is present, the direction passes the model's `isIn`
   * validation and both ids satisfy the foreign keys into `Users`.
   */
  predicate SwipeInsertable(users: map<int, User>, swiper: int, swipedUserId: Option<int>, swipeDirection: string) {
    swipedUserId.Some? && ParseDirection(swipeDirection).Some? && swiper in users && swipedUserId.value in users
  }

  /** `Swipe.destroy` of every swipe between `a` and `b`, in either direction. */
  method DestroyPairSwipes(db: Database, a: int, b: int)
    requires db.Valid()
    modifies db`swipes
    ensures db.Valid()
    ensures db.swipes == RemovePair(old(db.swipes), a, b)
  {
    db.swipes := RemovePair(db.swipes, a, b);
    assert forall i :: 0 <= i < |db.swipes| ==> db.swipes[i] in db.swipes;
  }

  /** The handler, run as one atomic step on the tables. */
  method RecordSwipe(db: Database, swiper: int, swipedUserId: Option<int>, swipeDirection: string)
    returns (outcome: SwipeOutcome)
    requires db.Valid()
    modifies db`swipes, db`matches, db`nextSwipeId, db`nextMatchId
    ensures db.Valid()
    ensures outcome == ServerError <==> !SwipeInsertable(old(db.users), swiper, swipedUserId, swipeDirection)
    ensures outcome == ServerError ==>
      db.swipes == old(db.swipes) && db.matches == old(db.matches) && db.nextSwipeId == old(db.nextSwipeId) && db.nextMatchId == old(db.nextMatchId)
    ensures outcome != ServerError ==>
      var swiped := swipedUserId.value;
      var recorded := old(db.swipes) + [Swipe(old(db.nextSwipeId), swiper, swiped, ParseDirection(swipeDirection).value)];
      && db.nextSwipeId == old(db.nextSwipeId) + 1
      && (outcome == Recorded <==> swipeDirection == "left" || !HasReverseRight(recorded, swiper, swiped))
      && (outcome == Recorded ==> db.swipes == recorded && db.matches == old(db.matches) && db.nextMatchId == old(db.nextMatchId))
      && (outcome.MatchCreated? <==>
            swipeDirection == "right" && HasReverseRight(recorded, swiper, swiped) && !PairMatched(old(db.matches), swiper, swiped))
      && (outcome.MatchCreated? ==>
            && outcome.created == Match(old(db.nextMatchId), swiper, swiped)
            && db.matches == old(db.matches) + [outcome.created]
            && db.nextMatchId == old(db.nextMatchId) + 1
            && db.swipes == RemovePair(recorded, swiper, swiped))
      && (outcome == AlreadyMatched ==>
            db.matches == old(db.matches) && db.nextMatchId == old(db.nextMatchId) && db.swipes == RemovePair(recorded, swiper, swiped))
    ensures UniquePairs(old(db.matches)) ==> UniquePairs(db.matches)
    ensures swipedUserId.Some? && PairMatched(old(db.matches), swiper, swipedUserId.value) ==> !outcome.MatchCreated?
  {
    if !SwipeInsertable(db.users, swiper, swipedUserId, swipeDirection) {
      return ServerError;
    }
    var swiped := swipedUserId.value;
    var _ := db.CreateSwipe(swiper, swiped, ParseDirection(swipeDirection).value);

    if swipeDirection == "right" && HasReverseRight(db.swipes, swiper, swiped) {
      if !PairMatched(db.matches, swiper, swiped) {
        if UniquePairs(db.matches) {
          MatchCreationKeepsPairsUnique(db.matches, Match(db.nextMatchId, swiper, swiped));
        }
        var m := db.CreateMatch(swiper, swiped);
        DestroyPairSwipes(db, swiper, swiped);
        return MatchCreated(m);
      } else {
        DestroyPairSwipes(db, swiper, swiped);
        return AlreadyMatched;
      }
    }
    return Recorded;
  }

  /**
   * Two users who have never swiped each other both swipe right: the first swipe is only recorded,
   * the second creates the match and clears the pair's swipes, and the pair has exactly one row.
   */
  method MutualSwipeScenario(db: Database, a: int, b: int)
    requires db.Valid()
    requires a in db.users && b in db.users && a != b
    requires UniquePairs(db.matches) && !PairMatched(db.matches, a, b)
    requires forall s :: s in db.swipes ==> !SwipeBetween(s, a, b)
    modifies db`swipes, db`matches, db`nextSwipeId, db`nextMatchId
    ensures UniquePairs(db.matches) && CountPair(db.matches, a, b) == 1
    ensures forall s :: s in db.swipes ==> !SwipeBetween(s, a, b)
  {
    var before := db.swipes;
    forall k | 0 <= k < |before| + 1
      ensures !((before + [Swipe(db.nextSwipeId, a, b, Right)])[k].swiperId == b && (before + [Swipe(db.nextSwipeId, a, b, Right)])[k].swipedId == a)
    {
      if k < |before| {
        assert before[k] in before;
      }
    }
    var first := RecordSwipe(db, a, Some(b), "right");
    assert first == Recorded;
    var mine := db.swipes;
    assert mine[|mine| - 1].swiperId == a && mine[|mine| - 1].swipedId == b && mine[|mine| - 1].direction == Right;
    assert (mine + [Swipe(db.nextSwipeId, b, a, Right)])[|mine| - 1] == mine[|mine| - 1];
    var second := RecordSwipe(db, b, Some(a), "right");
    assert second.MatchCreated?;
    assert MatchBetween(db.matches[|db.matches| - 1], a, b);
    UniquePairsCountOne(db.matches, a, b);
  }

  /** Once a pair is matched, any further swipe between them, in any direction, leaves exactly one row for the pair. */
  method SwipeAfterMatch(db: Database, swiper: int, swiped: int, swipeDirection: string) returns (outcome: SwipeOutcome)
    requires db.Valid()
    requires UniquePairs(db.matches) && PairMatched(db.matches, swiper, swiped)
    modifies db`swipes, db`matches, db`nextSwipeId, db`nextMatchId
    ensures !outcome.MatchCreated?
    ensures UniquePairs(db.matches) && CountPair(db.matches, swiper, swiped) == 1
  {
    outcome := RecordSwipe(db, swiper, Some(swiped), swipeDirection);
    UniquePairsCountOne(db.matches, swiper, swiped);
  }
}
