/**
 * The swiping screen of the web client: the deck of candidate cards, which photo of each card is
 * shown, what a swipe sends to the server, and how a card leaves the deck.
 *
 * The React state (`people`, `currentImageIndices`) is the state of `CardDeck`; the state updaters
 * are the functions it applies.
 */
module MainScreen {
  import opened Js
  import opened FindPeople

  /** The image shown when a card has no photo for the current index. */
  const NoImageUrl := "https://via.placeholder.com/400x600/cccccc/808080?text=No+Image"

  // ---------------------------------------------------------------- finding a card

  /** `people.find(p => p.id === personId)`: the first card with that id. */
  function FindPerson(people: seq<Profile>, id: int): (r: Option<Profile>)
    ensures r.None? <==> forall i :: 0 <= i < |people| ==> people[i].id != id
    ensures r.Some? ==> r.value.id == id && r.value in people
  {
    if people == [] then None
    else if people[0].id == id then Some(people[0])
    else FindPerson(people[1..], id)
  }

  /** `prevIndices[personId] ?? 0`. */
  function IndexOf(indices: map<int, int>, id: int): int {
    if id in indices then indices[id] else 0
  }

  // ---------------------------------------------------------------- photo cycling

  /** The index after one click: forward or backward by one, wrapping at either end, with JavaScript's `%`. */
  function NextIndex(current: int, count: int, direction: string): int
    requires count > 0
  {
    if direction == "next" then JsRem(current + 1, count)
    else if direction == "prev" then JsRem(current - 1 + count, count)
    else current
  }

  /** From a valid index every click gives a valid index. */
  lemma {:induction false} NextIndexInRange(current: int, count: int, direction: string)
    requires 0 <= current < count
    ensures 0 <= NextIndex(current, count, direction) < count
  {
  }

  /** Division with remainder has one answer: `r` is `a % n` whenever `a == q * n + r` with `r` in range. */
  lemma {:induction false} ModUnique(a: int, n: int, q: int, r: int)
    requires n > 0 && 0 <= r < n && a == q * n + r
    ensures a % n == r
  {
    var q' := a / n;
    var r' := a % n;
    assert (q' - q) * n == r - r' by {
      assert q' * n + r' == q * n + r;
      assert (q' - q) * n == q' * n - q * n;
    }
    NonZeroMultiple(q' - q, n);
  }

  /** A non-zero multiple of `n` is at least `n` away from zero. */
  lemma {:induction false} NonZeroMultiple(d: int, n: int)
    requires n > 0
    ensures d >= 1 ==> d * n >= n
    ensures d <= -1 ==> d * n <= -n
  {
    if d >= 1 {
      assert d * n == (d - 1) * n + n;
    } else if d <= -1 {
      assert d * n == (d + 1) * n - n;
    }
  }

  lemma {:induction false} DivMod(a: int, n: int)
    requires n > 0
    ensures a == (a / n) * n + a % n && 0 <= a % n < n
  {
  }

  /** One step forward from a valid index: the next index, or 0 after the last. */
  lemma {:induction false} StepForward(current: int, count: int)
    requires 0 <= current < count
    ensures NextIndex(current, count, "next") == if current + 1 < count then current + 1 else 0
  {
    if current + 1 < count {
      ModUnique(current + 1, count, 0, current + 1);
    } else {
      ModUnique(current + 1, count, 1, 0);
    }
  }

  /** One step back from a valid index: the previous index, or the last after 0. */
  lemma {:induction false} StepBack(current: int, count: int)
    requires 0 <= current < count
    ensures NextIndex(current, count, "prev") == if current == 0 then count - 1 else current - 1
  {
    if current == 0 {
      ModUnique(count - 1, count, 0, count - 1);
    } else {
      ModUnique(current - 1 + count, count, 1, current - 1);
    }
  }

  /** "next" then "prev" comes back to the same photo, and so does "prev" then "next". */
  lemma {:induction false} NextThenPrev(current: int, count: int)
    requires 0 <= current < count
    ensures NextIndex(NextIndex(current, count, "next"), count, "prev") == current
    ensures NextIndex(NextIndex(current, count, "prev"), count, "next") == current
  {
    StepForward(current, count);
    StepBack(NextIndex(current, count, "next"), count);
    StepBack(current, count);
    StepForward(NextIndex(current, count, "prev"), count);
  }

  /** `k` clicks on "next" from a valid index. */
  function Forward(current: int, count: int, k: nat): int
    requires count > 0
  {
    if k == 0 then current else NextIndex(Forward(current, count, k - 1), count, "next")
  }

  /** `k` clicks on "next" show the photo `k` places further round the cycle. */
  lemma {:induction false} ForwardIsRotation(current: int, count: int, k: nat)
    requires 0 <= current < count
    ensures Forward(current, count, k) == (current + k) % count
  {
    if k == 0 {
      ModUnique(current, count, 0, current);
    } else {
      ForwardIsRotation(current, count, k - 1);
      var a := current + k - 1;
      var q, before := a / count, a % count;
      DivMod(a, count);
      assert Forward(current, count, k) == NextIndex(before, count, "next");
      StepForward(before, count);
      if before + 1 < count {
        ModUnique(a + 1, count, q, before + 1);
      } else {
        NextMultiple(q, count);
        ModUnique(a + 1, count, q + 1, 0);
      }
    }
  }

  lemma {:induction false} NextMultiple(q: int, n: int)
    ensures (q + 1) * n == q * n + n
  {
  }

  /**
   * The `handleImageChange` updater: for a known card with more than one photo, moves that card's
   * index by one click; an unknown card or one with at most one photo leaves every index as it is.
   */
  function ChangeImage(people: seq<Profile>, indices: map<int, int>, id: int, direction: string): (r: map<int, int>)
    ensures FindPerson(people, id).None? || |FindPerson(people, id).value.images| <= 1 ==> r == indices
    ensures FindPerson(people, id).Some? && |FindPerson(people, id).value.images| > 1 ==>
              r.Keys == indices.Keys + {id} &&
              r[id] == NextIndex(IndexOf(indices, id), |FindPerson(people, id).value.images|, direction)
    ensures forall k :: k != id ==> IndexOf(r, k) == IndexOf(indices, k)
  {
    match FindPerson(people, id)
    case None => indices
    case Some(person) =>
      if |person.images| <= 1 then indices
      else indices[id := NextIndex(IndexOf(indices, id), |person.images|, direction)]
  }

  /** The photo on a card: the one at its index, or the placeholder when the card has none there. */
  function ImageUrl(person: Profile, indices: map<int, int>): (url: string)
    ensures url == NoImageUrl || url in person.images
    ensures person.images == [] ==> url == NoImageUrl
    ensures 0 <= IndexOf(indices, person.id) < |person.images| ==> url == person.images[IndexOf(indices, person.id)]
    ensures !(0 <= IndexOf(indices, person.id) < |person.images|) ==> url == NoImageUrl
  {
    var i := IndexOf(indices, person.id);
    if |person.images| > 0 && 0 <= i < |person.images| then person.images[i] else NoImageUrl
  }

  // ---------------------------------------------------------------- swipes and leaving cards

  /** The `onSwipe` updater: forgets the swiped card's photo index and no other. */
  function ForgetIndex(indices: map<int, int>, id: int): (r: map<int, int>)
    ensures r.Keys == indices.Keys - {id}
    ensures IndexOf(r, id) == 0
    ensures forall k :: k != id ==> IndexOf(r, k) == IndexOf(indices, k)
  {
    indices - {id}
  }

  /** A swipe is sent to the server only for "left" and "right". */
  function SwipeRequest(direction: string, person: Profile): (r: Option<(int, string)>)
    ensures r.Some? <==> direction == "left" || direction == "right"
    ensures r.Some? ==> r.value == (person.id, direction)
  {
    if direction == "right" || direction == "left" then Some((person.id, direction)) else None
  }

  /** The `onCardLeftScreen` updater: every card with that id leaves, the others stay in order. */
  function RemovePerson(people: seq<Profile>, id: int): (r: seq<Profile>)
    ensures |r| <= |people|
    ensures forall i :: 0 <= i < |r| ==> r[i].id != id && r[i] in people
    ensures forall p :: p in people && p.id != id ==> p in r
  {
    if people == [] then []
    else if people[0].id == id then RemovePerson(people[1..], id)
    else [people[0]] + RemovePerson(people[1..], id)
  }

  /** Removing from a deck in two pieces is removing from each piece: the order of the rest is kept. */
  lemma {:induction false} RemovePersonAppend(a: seq<Profile>, b: seq<Profile>, id: int)
    ensures RemovePerson(a + b, id) == RemovePerson(a, id) + RemovePerson(b, id)
  {
    if a != [] {
      assert (a + b)[1..] == a[1..] + b;
      RemovePersonAppend(a[1..], b, id);
    } else {
      assert a + b == b;
    }
  }

  /** After removal, searching the deck finds no card with that id and the same card for every other id. */
  lemma {:induction false} FindPersonAfterRemove(people: seq<Profile>, id: int, other: int)
    ensures FindPerson(RemovePerson(people, id), id).None?
    ensures other != id ==> FindPerson(RemovePerson(people, id), other) == FindPerson(people, other)
  {
    if people != [] {
      FindPersonAfterRemove(people[1..], id, other);
      if people[0].id != id {
        assert ([people[0]] + RemovePerson(people[1..], id))[1..] == RemovePerson(people[1..], id);
      }
    }
  }

  /** The top card, which the buttons swipe: the last in the deck. */
  function TopCard(people: seq<Profile>): (r: Option<Profile>)
    ensures r.None? <==> people == []
    ensures r.Some? ==> r.value == people[|people| - 1]
  {
    if people == [] then None else Some(people[|people| - 1])
  }

  // ---------------------------------------------------------------- the deck

  /** Every card's photo index points at one of its photos (or is 0 for a card without photos). */
  ghost predicate IndicesInRange(people: seq<Profile>, indices: map<int, int>) {
    forall id :: FindPerson(people, id).Some? ==>
      0 <= IndexOf(indices, id) && (IndexOf(indices, id) < |FindPerson(people, id).value.images| || IndexOf(indices, id) == 0)
  }

  /** Under the invariant, a card with photos always shows one of its own photos. */
  lemma {:induction false} ShownImageIsOwn(people: seq<Profile>, indices: map<int, int>, id: int)
    requires IndicesInRange(people, indices)
    requires FindPerson(people, id).Some? && FindPerson(people, id).value.images != []
    ensures ImageUrl(FindPerson(people, id).value, indices) in FindPerson(people, id).value.images
  {
  }

  class CardDeck {
    /** `people`: the cards, the top card last. */
    var people: seq<Profile>
    /** `currentImageIndices`: card id to the index of the photo shown. */
    var indices: map<int, int>
    /** The `(swipedUserId, swipeDirection)` bodies posted to the swipe route, oldest first. */
    var swipesSent: seq<(int, string)>

    ghost predicate Valid()
      reads this
    {
      IndicesInRange(people, indices)
    }

    constructor()
      ensures Valid()
      ensures people == [] && indices == map[] && swipesSent == []
    {
      people := [];
      indices := map[];
      swipesSent := [];
    }

    /** The candidate list arrives: it replaces the deck and every card starts on its first photo. */
    method Load(data: seq<Profile>)
      modifies this`people, this`indices
      ensures Valid()
      ensures people == data
      ensures forall i :: 0 <= i < |data| ==> data[i].id in indices && indices[data[i].id] == 0
      ensures forall k :: k in old(indices) && (forall i :: 0 <= i < |data| ==> data[i].id != k) ==> k in indices && indices[k] == old(indices)[k]
    {
      var started := map i | 0 <= i < |data| :: data[i].id := 0;
      people := data;
      indices := indices + started;
      forall id | FindPerson(people, id).Some?
        ensures IndexOf(indices, id) == 0
      {
        var p := FindPerson(people, id).value;
        var i :| 0 <= i < |data| && data[i] == p;
        assert id in started;
      }
    }

    /** A click on a card's left or right edge. */
    method ImageChange(id: int, direction: string)
      requires Valid()
      modifies this`indices
      ensures Valid()
      ensures indices == ChangeImage(people, old(indices), id, direction)
    {
      indices := ChangeImage(people, indices, id, direction);
      forall other | FindPerson(people, other).Some?
        ensures 0 <= IndexOf(indices, other)
        ensures IndexOf(indices, other) < |FindPerson(people, other).value.images| || IndexOf(indices, other) == 0
      {
        if other == id && |FindPerson(people, id).value.images| > 1 {
          NextIndexInRange(IndexOf(old(indices), id), |FindPerson(people, id).value.images|, direction);
        }
      }
    }

    /** `onSwipe`: forgets the card's photo index and posts the swipe when it is "left" or "right". */
    method Swipe(direction: string, person: Profile)
      requires Valid()
      modifies this`indices, this`swipesSent
      ensures Valid()
      ensures indices == ForgetIndex(old(indices), person.id)
      ensures swipesSent == old(swipesSent) + (if direction == "left" || direction == "right" then [(person.id, direction)] else [])
    {
      indices := ForgetIndex(indices, person.id);
      var request := SwipeRequest(direction, person);
      if request.Some? {
        swipesSent := swipesSent + [request.value];
      }
    }

    /** `onCardLeftScreen`: the card leaves the deck. */
    method CardLeftScreen(id: int)
      requires Valid()
      modifies this`people
      ensures Valid()
      ensures people == RemovePerson(old(people), id)
    {
      forall other | FindPerson(RemovePerson(people, id), other).Some?
        ensures FindPerson(RemovePerson(people, id), other) == FindPerson(people, other)
      {
        FindPersonAfterRemove(people, id, other);
      }
      people := RemovePerson(people, id);
    }
  }
}
