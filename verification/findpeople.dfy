/**
 * `POST /findPeople`: the candidate search. The request is validated in a fixed order, the caller
 * and everybody already matched with the caller are excluded, and the remaining users of the
 * searched sex whose age lies in the requested range are returned with their image URLs.
 */
module FindPeople {
  import opened Js
  import opened Dates
  import opened Models

  /** The request body. `None` is a field that is absent (`undefined`). */
  datatype Request = Request(userId: Option<int>, searchedSex: Option<string>, minAge: Option<int>, maxAge: Option<int>)

  datatype Rejection = MissingUserId | MissingFields | AgeBelowAdult | InvalidAgeRange

  /** A user row without `passwordHash`, with the URLs of its images. */
  datatype Profile = Profile(
    id: int, username: string, email: string, dob: Date, bio: string, sex: string,
    searchedSex: string, minAge: int, maxAge: int, images: seq<string>)

  datatype Outcome = BadRequest(reason: Rejection) | Found(people: set<Profile>)

  const AdultAge := 18

  /** The four checks in the order the handler makes them; `None` lets the request through. */
  function Validate(req: Request): (r: Option<Rejection>)
    ensures r == Some(MissingUserId) <==> req.userId.None?
    ensures r == Some(MissingFields) <==> req.userId.Some? && (!TruthyText(req.searchedSex) || req.minAge.None? || req.maxAge.None?)
    ensures r == Some(AgeBelowAdult) <==>
      req.userId.Some? && TruthyText(req.searchedSex) && req.minAge.Some? && req.maxAge.Some? && req.minAge.value < AdultAge
    ensures r.None? <==>
      && req.userId.Some? && TruthyText(req.searchedSex) && req.minAge.Some? && req.maxAge.Some?
      && AdultAge <= req.minAge.value <= req.maxAge.value
  {
    if req.userId.None? then Some(MissingUserId)
    else if !TruthyText(req.searchedSex) || req.minAge.None? || req.maxAge.None? then Some(MissingFields)
    else if req.minAge.value < AdultAge then Some(AgeBelowAdult)
    else if req.maxAge.value < AdultAge || req.minAge.value > req.maxAge.value then Some(InvalidAgeRange)
    else None
  }

  /** `matchedPartnerIds`: `user1_id === currentUserId ? user2_id : user1_id` for every match of the caller. */
  function MatchedPartnerIds(ms: seq<Match>, u: int): (r: seq<int>)
    ensures |r| == |MatchesOf(ms, u)|
    ensures forall p :: p in r <==> exists m :: m in ms && MatchBetween(m, u, p)
  {
    var mine := MatchesOf(ms, u);
    var r := seq(|mine|, i requires 0 <= i < |mine| => Other(mine[i], u));
    assert forall p :: p in r <==> exists m :: m in ms && MatchBetween(m, u, p) by {
      forall p ensures p in r <==> exists m :: m in ms && MatchBetween(m, u, p) {
        if exists m :: m in ms && MatchBetween(m, u, p) {
          var m :| m in ms && MatchBetween(m, u, p);
          assert m in mine;
          var i :| 0 <= i < |mine| && mine[i] == m;
          assert r[i] == p;
        }
        if p in r {
          var i :| 0 <= i < |r| && r[i] == p;
          assert mine[i] in mine && MatchBetween(mine[i], u, p);
        }
      }
    }
    r
  }

  /** `excludedUserIds`: the caller followed by its partners. */
  function ExcludedIds(ms: seq<Match>, u: int): (r: seq<int>)
    ensures forall x :: x in r <==> x == u || exists m :: m in ms && MatchBetween(m, u, x)
  {
    [u] + MatchedPartnerIds(ms, u)
  }

  /**
   * The dob window the query uses: `dob BETWEEN subYears(today, maxAge) AND subYears(today, minAge)`.
   * Its upper age bound is off by one year (see `WindowAsWrittenMissesMaxAge`).
   */
  predicate InDobWindowAsWritten(today: Date, minAge: int, maxAge: int, dob: Date) {
    OnOrBefore(SubYears(today, maxAge), dob) && OnOrBefore(dob, SubYears(today, minAge))
  }

  /** The range the handler's comments promise: a completed age (as `calculateAge` counts it) between the bounds inclusive. */
  predicate InAgeRange(today: Date, minAge: int, maxAge: int, dob: Date) {
    minAge <= Age(today, dob) <= maxAge
  }

  /** Today 2025-06-15, ages 18 to 30: someone born 1995-01-01 is 30, yet the query leaves them out. */
  lemma {:induction false} WindowAsWrittenMissesMaxAge()
    ensures var today, dob := Date(2025, 6, 15), Date(1995, 1, 1);
      && Age(today, dob) == 30
      && InAgeRange(today, 18, 30, dob)
      && !InDobWindowAsWritten(today, 18, 30, dob)
  {
  }

  /**
   * Away from 29 February, the window as written keeps only people inside the intended range, and of
   * those who have reached `maxAge` it keeps only the ones whose birthday is today.
   */
  lemma {:induction false} WindowAsWrittenOnlyOnBirthday(today: Date, minAge: int, maxAge: int, dob: Date)
    requires !(today.month == 2 && today.day == 29)
    ensures InDobWindowAsWritten(today, minAge, maxAge, dob) ==> InAgeRange(today, minAge, maxAge, dob)
    ensures InDobWindowAsWritten(today, minAge, maxAge, dob) && Age(today, dob) == maxAge ==>
      dob.month == today.month && dob.day == today.day
  {
    SubYearsBoundIsAge(today, dob, minAge);
    AgeAtLeastIff(today, dob, maxAge + 1);
    if Age(today, dob) == maxAge {
      AgeAtLeastIff(today, dob, maxAge);
    }
  }

  /** A candidate as the corrected search admits it: searched sex, in the age range, not excluded. */
  predicate Eligible(user: User, today: Date, searchedSex: string, minAge: int, maxAge: int, excluded: seq<int>) {
    user.sex == searchedSex && InAgeRange(today, minAge, maxAge, user.dob) && user.id !in excluded
  }

  function ToProfile(user: User, images: seq<UserImage>): Profile {
    Profile(user.id, user.username, user.email, user.dob, user.bio, user.sex, user.searchedSex, user.minAge, user.maxAge,
            ImageUrlsOf(images, user.id))
  }

  /** The route, with the age range compared through `calculateAge` rather than the dob window as written. */
  function Search(req: Request, today: Date, users: map<int, User>, images: seq<UserImage>, matches: seq<Match>): (r: Outcome)
    ensures r.BadRequest? <==> Validate(req).Some?
    ensures r.BadRequest? ==> r.reason == Validate(req).value
  {
    match Validate(req)
    case Some(reason) => BadRequest(reason)
    case None =>
      var excluded := ExcludedIds(matches, req.userId.value);
      Found(set id | id in users && Eligible(users[id], today, req.searchedSex.value, req.minAge.value, req.maxAge.value, excluded)
                   :: ToProfile(users[id], images))
  }

  /**
   * Every person found has the searched sex, an age in the requested range, is not the caller and
   * not matched with the caller, and carries exactly the URLs of its own images; every stored user
   * that qualifies is found.
   */
  lemma {:induction false} SearchFindsExactlyEligible(req: Request, today: Date, users: map<int, User>, images: seq<UserImage>, matches: seq<Match>)
    requires Validate(req).None?
    requires forall id :: id in users ==> users[id].id == id
    ensures var r := Search(req, today, users, images, matches);
      && r.Found?
      && (forall p :: p in r.people ==>
            && p.sex == req.searchedSex.value
            && req.minAge.value <= Age(today, p.dob) <= req.maxAge.value
            && p.id != req.userId.value
            && (forall m :: m in matches ==> !MatchBetween(m, req.userId.value, p.id))
            && (forall url :: url in p.images <==> exists i :: 0 <= i < |images| && images[i].userId == p.id && images[i].imgUrl == url))
      && (forall id :: id in users && users[id].sex == req.searchedSex.value && req.minAge.value <= Age(today, users[id].dob) <= req.maxAge.value
                       && id != req.userId.value && (forall m :: m in matches ==> !MatchBetween(m, req.userId.value, id))
                   ==> ToProfile(users[id], images) in r.people)
  {
    var u := req.userId.value;
    var excluded := ExcludedIds(matches, u);
    forall id | id in users && users[id].sex == req.searchedSex.value && req.minAge.value <= Age(today, users[id].dob) <= req.maxAge.value
                && id != u && (forall m :: m in matches ==> !MatchBetween(m, u, id))
      ensures users[id].id !in excluded
    {
    }
  }
}
