/**
 * The profile routes: `PUT /` (the four editable preferences), `GET /getUser` (the profile with its
 * image URLs), `POST /saveUserImages` (one row per uploaded URL), `DELETE /deleteUserImage` and the
 * `extractPublicId` parser that turns an image URL into the image host's public id.
 */
module EditProfile {
  import opened Js
  import opened Dates
  import opened Models
  import opened Store

  // ---------------------------------------------------------------- extractPublicId

  predicate IsLowerLetter(c: char) {
    'a' <= c <= 'z'
  }

  predicate IsDecimalDigit(c: char) {
    '0' <= c <= '9'
  }

  predicate NoLineTerminator(s: string) {
    forall i :: 0 <= i < |s| ==> !IsLineTerminator(s[i])
  }

  /** No character of `s[a..b]` is a line terminator, so `.*` can cover it. */
  predicate NoLineTerminatorBetween(s: string, a: nat, b: nat)
    requires a <= b <= |s|
  {
    forall k :: a <= k < b ==> !IsLineTerminator(s[k])
  }

  /**
   * Where `\.[a-z]{3,4}$` can start: the dot before a final run of three lower-case letters, else
   * the dot before a final run of four. At most one of the two exists, since the first needs a dot
   * where the second needs a letter.
   */
  function ExtensionDot(s: string): (r: Option<nat>)
    ensures r.Some? ==> r.value < |s| && s[r.value] == '.' && 3 <= |s| - r.value - 1 <= 4
                        && forall i :: r.value < i < |s| ==> IsLowerLetter(s[i])
  {
    var n := |s|;
    if n >= 4 && s[n - 4] == '.' && IsLowerLetter(s[n - 3]) && IsLowerLetter(s[n - 2]) && IsLowerLetter(s[n - 1]) then Some(n - 4)
    else if n >= 5 && s[n - 5] == '.' && IsLowerLetter(s[n - 4]) && IsLowerLetter(s[n - 3]) && IsLowerLetter(s[n - 2]) && IsLowerLetter(s[n - 1]) then Some(n - 5)
    else None
  }

  /** The end of the run of decimal digits that starts at `j`. */
  function DigitsEnd(s: string, j: nat): (r: nat)
    requires j <= |s|
    decreases |s| - j
    ensures j <= r <= |s|
    ensures forall k :: j <= k < r ==> IsDecimalDigit(s[k])
    ensures r < |s| ==> !IsDecimalDigit(s[r])
  {
    if j < |s| && IsDecimalDigit(s[j]) then DigitsEnd(s, j + 1) else j
  }

  /**
   * When `\/v[0-9]+\/` matches at `i`: the index of its closing slash. `[0-9]+` cannot give back a
   * digit to `\/`, so the slash follows the whole digit run.
   */
  function VersionSlash(s: string, i: nat): (r: Option<nat>)
    requires i <= |s|
    ensures r.Some? ==> i + 3 <= r.value < |s| && s[i] == '/' && s[i + 1] == 'v' && s[r.value] == '/'
                        && forall k :: i + 2 <= k < r.value ==> IsDecimalDigit(s[k])
  {
    if i + 2 <= |s| && s[i] == '/' && s[i + 1] == 'v' then
      var j := DigitsEnd(s, i + 2);
      if j > i + 2 && j < |s| && s[j] == '/' then Some(j) else None
    else None
  }

  /** The whole pattern `\/v[0-9]+\/(.*)\.[a-z]{3,4}$` matches starting at `i`. */
  predicate MatchesAt(s: string, i: nat)
    requires i <= |s|
  {
    && VersionSlash(s, i).Some? && ExtensionDot(s).Some?
    && VersionSlash(s, i).value + 1 <= ExtensionDot(s).value
    && NoLineTerminatorBetween(s, VersionSlash(s, i).value + 1, ExtensionDot(s).value)
  }

  /** Capture group 1 of a match at `i`. */
  function Capture(s: string, i: nat): string
    requires i <= |s| && MatchesAt(s, i)
  {
    s[VersionSlash(s, i).value + 1..ExtensionDot(s).value]
  }

  /** The regex search from position `i` on: where the leftmost match starts. */
  function FirstMatchFrom(s: string, i: nat): (r: Option<nat>)
    requires i <= |s|
    decreases |s| - i
    ensures r.None? ==> forall k :: i <= k <= |s| ==> !MatchesAt(s, k)
    ensures r.Some? ==> i <= r.value <= |s| && MatchesAt(s, r.value) && forall k :: i <= k < r.value ==> !MatchesAt(s, k)
  {
    if MatchesAt(s, i) then Some(i)
    else if i == |s| then None
    else FirstMatchFrom(s, i + 1)
  }

  /** `extractPublicId`: group 1 of the first match of the pattern, `null` when there is none. */
  function ExtractPublicId(url: string): (r: Option<string>)
    ensures r.None? <==> forall k :: 0 <= k <= |url| ==> !MatchesAt(url, k)
    ensures r.Some? ==> exists k :: 0 <= k <= |url| && MatchesAt(url, k) && r.value == Capture(url, k)
                                    && forall k' :: 0 <= k' < k ==> !MatchesAt(url, k')
  {
    match FirstMatchFrom(url, 0)
    case None => None
    case Some(k) => Some(Capture(url, k))
  }

  /** The leftmost match decides the result. */
  lemma {:induction false} LeftmostMatch(s: string, p: nat)
    requires p <= |s| && MatchesAt(s, p)
    requires forall i :: 0 <= i < p ==> !MatchesAt(s, i)
    ensures ExtractPublicId(s) == Some(Capture(s, p))
  {
  }

  /** No match can start inside a prefix that holds no `/v` and is followed by a slash. */
  lemma {:induction false} NoMatchInPrefix(s: string, p: nat)
    requires p + 1 < |s| && s[p] == '/'
    requires forall i :: 0 <= i < p - 1 ==> !(s[i] == '/' && s[i + 1] == 'v')
    ensures forall i :: 0 <= i < p ==> !MatchesAt(s, i)
  {
    forall i | 0 <= i < p ensures VersionSlash(s, i).None? {
      if i == p - 1 {
        assert s[i + 1] == '/';
      }
    }
  }

  /** `/v` then the decimal digits of `version` then `/` at `p`: the closing slash is right after the digits. */
  lemma {:induction false} VersionSlashOfDecimal(s: string, p: nat, version: nat)
    requires p + 2 + |Decimal(version)| < |s|
    requires s[p] == '/' && s[p + 1] == 'v' && s[p + 2 + |Decimal(version)|] == '/'
    requires forall k :: 0 <= k < |Decimal(version)| ==> s[p + 2 + k] == Decimal(version)[k]
    ensures VersionSlash(s, p) == Some(p + 2 + |Decimal(version)|)
  {
    var d := Decimal(version);
    var j := p + 2 + |d|;
    forall k | p + 2 <= k < j ensures IsDecimalDigit(s[k]) {
      assert s[k] == d[k - p - 2];
    }
    DigitsEndAt(s, p + 2, j);
  }

  lemma {:induction false} DigitsEndAt(s: string, a: nat, b: nat)
    requires a <= b < |s|
    requires forall k :: a <= k < b ==> IsDecimalDigit(s[k])
    requires !IsDecimalDigit(s[b])
    decreases b - a
    ensures DigitsEnd(s, a) == b
  {
    if a < b {
      DigitsEndAt(s, a + 1, b);
    }
  }

  /** A URL ending in `.` and three or four lower-case letters has its extension dot there. */
  lemma {:induction false} ExtensionDotOf(s: string, k: nat)
    requires k < |s| && s[k] == '.' && 3 <= |s| - k - 1 <= 4
    requires forall i :: k < i < |s| ==> IsLowerLetter(s[i])
    ensures ExtensionDot(s) == Some(k)
  {
    if |s| - k - 1 == 4 {
      assert IsLowerLetter(s[|s| - 4]);
    }
  }

  /**
   * For an upload URL `<prefix>/v<version>/<public id>.<ext>` whose prefix holds no `/v`, the parser
   * returns exactly the public id, even when the id itself contains slashes, dots or `/v<digits>/`.
   */
  lemma {:induction false} ExtractPublicIdOfUploadUrl(prefix: string, version: nat, id: string, ext: string)
    requires forall i :: 0 <= i < |prefix| - 1 ==> !(prefix[i] == '/' && prefix[i + 1] == 'v')
    requires NoLineTerminator(id)
    requires 3 <= |ext| <= 4 && forall i :: 0 <= i < |ext| ==> IsLowerLetter(ext[i])
    ensures ExtractPublicId(prefix + "/v" + Decimal(version) + "/" + id + "." + ext) == Some(id)
  {
    var s := prefix + "/v" + Decimal(version) + "/" + id + "." + ext;
    var p := |prefix|;
    UploadUrlIndices(prefix, Decimal(version), id, ext);
    ExtractFromShape(s, p, version, id);
  }

  /** The same statement over the indices of the URL: `s[p..]` is `/v<version>/`, an id of length `n`, a dot and the extension. */
  lemma {:induction false} ExtractFromShape(s: string, p: nat, version: nat, id: string)
    requires var j, n := p + 2 + |Decimal(version)|, |id|;
      && j + 1 + n < |s| && 3 <= |s| - (j + 1 + n) - 1 <= 4
      && (forall i :: 0 <= i < p - 1 ==> !(s[i] == '/' && s[i + 1] == 'v'))
      && s[p] == '/' && s[p + 1] == 'v' && s[j] == '/' && s[j + 1 + n] == '.'
      && (forall i :: 0 <= i < |Decimal(version)| ==> s[p + 2 + i] == Decimal(version)[i])
      && (forall i :: j + 1 + n < i < |s| ==> IsLowerLetter(s[i]))
      && NoLineTerminatorBetween(s, j + 1, j + 1 + n)
      && s[j + 1..j + 1 + n] == id
    ensures ExtractPublicId(s) == Some(id)
  {
    var j := p + 2 + |Decimal(version)|;
    var k := j + 1 + |id|;
    assert s[j + 1..k] == id;
    NoMatchInPrefix(s, p);
    VersionSlashOfDecimal(s, p, version);
    ExtensionDotOf(s, k);
    ExtractAt(s, p, j, k);
  }

  /** A match at `p` with its closing slash at `j` and the extension dot at `k`, and none before it, captures `s[j + 1..k]`. */
  lemma {:induction false} ExtractAt(s: string, p: nat, j: nat, k: nat)
    requires p <= |s| && VersionSlash(s, p) == Some(j) && ExtensionDot(s) == Some(k)
    requires j + 1 <= k && NoLineTerminatorBetween(s, j + 1, k)
    requires forall i :: 0 <= i < p ==> !MatchesAt(s, i)
    ensures ExtractPublicId(s) == Some(s[j + 1..k])
  {
    assert MatchesAt(s, p);
    LeftmostMatch(s, p);
  }

  /** The upload URL character by character. */
  lemma {:induction false} UploadUrlIndices(prefix: string, d: string, id: string, ext: string)
    requires forall i :: 0 <= i < |prefix| - 1 ==> !(prefix[i] == '/' && prefix[i + 1] == 'v')
    requires NoLineTerminator(id)
    requires forall i :: 0 <= i < |ext| ==> IsLowerLetter(ext[i])
    ensures var s := prefix + "/v" + d + "/" + id + "." + ext;
      var p, j := |prefix|, |prefix| + 2 + |d|;
      var k := j + 1 + |id|;
      && |s| == k + 1 + |ext|
      && (forall i :: 0 <= i < p - 1 ==> !(s[i] == '/' && s[i + 1] == 'v'))
      && s[p] == '/' && s[p + 1] == 'v' && s[j] == '/' && s[k] == '.'
      && (forall i :: 0 <= i < |d| ==> s[p + 2 + i] == d[i])
      && (forall i :: k < i < |s| ==> IsLowerLetter(s[i]))
      && s[j + 1..k] == id
      && NoLineTerminatorBetween(s, j + 1, k)
  {
    var s := prefix + "/v" + d + "/" + id + "." + ext;
    var p := |prefix|;
    var j := p + 2 + |d|;
    var k := j + 1 + |id|;
    forall i | 0 <= i < p - 1 ensures !(s[i] == '/' && s[i + 1] == 'v') {
      assert s[i] == prefix[i] && s[i + 1] == prefix[i + 1];
    }
    forall i | k < i < |s| ensures IsLowerLetter(s[i]) {
      assert s[i] == ext[i - k - 1];
    }
    assert forall i :: j + 1 <= i < k ==> s[i] == id[i - j - 1];
  }

  // ---------------------------------------------------------------- PUT / and GET /getUser

  datatype UpdateOutcome = UserNotFound | ProfileUpdated

  /** `PUT /`: the caller's `searchedSex`, `minAge`, `maxAge` and `bio` take the request's values; nothing else changes. */
  method UpdateProfile(db: Database, userId: int, searchedSex: string, minAge: int, maxAge: int, bio: string)
    returns (r: UpdateOutcome)
    requires db.Valid()
    modifies db`users
    ensures db.Valid()
    ensures r == UserNotFound <==> userId !in old(db.users)
    ensures r == UserNotFound ==> db.users == old(db.users)
    ensures r == ProfileUpdated ==>
      db.users == old(db.users)[userId := old(db.users)[userId].(searchedSex := searchedSex, minAge := minAge, maxAge := maxAge, bio := bio)]
  {
    if userId !in db.users {
      return UserNotFound;
    }
    var user := db.users[userId];
    db.users := db.users[userId := user.(searchedSex := searchedSex, minAge := minAge, maxAge := maxAge, bio := bio)];
    return ProfileUpdated;
  }

  /** The `GET /getUser` body. */
  datatype ProfileView = ProfileView(
    username: string, email: string, dob: Date, bio: string, sex: string,
    searchedSex: string, minAge: int, maxAge: int, images: seq<string>)

  function GetUser(users: map<int, User>, images: seq<UserImage>, userId: int): (r: Option<ProfileView>)
    ensures r.None? <==> userId !in users
    ensures r.Some? ==>
      var u := users[userId];
      && r.value.username == u.username && r.value.email == u.email && r.value.dob == u.dob
      && r.value.bio == u.bio && r.value.sex == u.sex && r.value.searchedSex == u.searchedSex
      && r.value.minAge == u.minAge && r.value.maxAge == u.maxAge
      && r.value.images == ImageUrlsOf(images, userId)
    ensures r.Some? ==> forall url :: url in r.value.images <==>
      exists i :: 0 <= i < |images| && images[i].userId == userId && images[i].imgUrl == url
  {
    if userId !in users then None
    else
      var u := users[userId];
      Some(ProfileView(u.username, u.email, u.dob, u.bio, u.sex, u.searchedSex, u.minAge, u.maxAge, ImageUrlsOf(images, userId)))
  }

  /** A profile update is what the next `getUser` shows, and the fields it does not edit read as before. */
  lemma {:induction false} UpdateThenGetUser(users: map<int, User>, images: seq<UserImage>, userId: int, searchedSex: string, minAge: int, maxAge: int, bio: string)
    requires userId in users
    ensures var before := GetUser(users, images, userId).value;
      var after := GetUser(users[userId := users[userId].(searchedSex := searchedSex, minAge := minAge, maxAge := maxAge, bio := bio)], images, userId).value;
      after == before.(searchedSex := searchedSex, minAge := minAge, maxAge := maxAge, bio := bio)
  {
  }

  // ---------------------------------------------------------------- POST /saveUserImages

  datatype SaveOutcome = SaveRejected | Saved(rows: seq<UserImage>) | SaveFailed

  /** The rows `UserImages.create` inserts for `urls`, with consecutive ids from `firstId`. */
  function NewImageRows(firstId: int, userId: int, urls: seq<string>): seq<UserImage> {
    seq(|urls|, i requires 0 <= i < |urls| => UserImage(firstId + i, userId, urls[i]))
  }

  /** The URLs before the first `null` element, which is where `create` fails (the column is not nullable). */
  function UrlsBeforeNull(items: seq<Option<string>>): (r: seq<string>)
    ensures |r| <= |items|
    ensures forall i :: 0 <= i < |r| ==> items[i] == Some(r[i])
    ensures |r| < |items| ==> items[|r|].None?
  {
    if items == [] || items[0].None? then [] else [items[0].value] + UrlsBeforeNull(items[1..])
  }

  /**
   * `POST /saveUserImages`. A falsy `userId`, or `images` missing, not an array or empty, is
   * rejected before anything is written. Otherwise the URLs are inserted one by one in order; a
   * `null` URL fails the request, and the rows inserted before it stay.
   */
  method SaveUserImages(db: Database, userId: Option<int>, images: Option<seq<Option<string>>>) returns (r: SaveOutcome)
    requires db.Valid()
    modifies db`images, db`nextImageId
    ensures db.Valid()
    ensures r == SaveRejected <==> !TruthyInt(userId) || images.None? || images.value == []
    ensures r == SaveRejected ==> db.images == old(db.images) && db.nextImageId == old(db.nextImageId)
    ensures r != SaveRejected ==>
      var urls := UrlsBeforeNull(images.value);
      && db.images == old(db.images) + NewImageRows(old(db.nextImageId), userId.value, urls)
      && db.nextImageId == old(db.nextImageId) + |urls|
      && (r.Saved? <==> |urls| == |images.value|)
      && (r.Saved? ==> r.rows == NewImageRows(old(db.nextImageId), userId.value, urls))
  {
    if !TruthyInt(userId) || images.None? || images.value == [] {
      return SaveRejected;
    }
    var u := userId.value;
    var items := images.value;
    ghost var urls := UrlsBeforeNull(items);
    var saved: seq<UserImage> := [];
    var i := 0;
    while i < |items|
      invariant 0 <= i <= |items| && i <= |urls|
      invariant saved == NewImageRows(old(db.nextImageId), u, urls[..i])
      invariant db.images == old(db.images) + saved
      invariant db.nextImageId == old(db.nextImageId) + i
      invariant db.Valid()
    {
      if items[i].None? {
        assert urls[..i] == urls;
        return SaveFailed;
      }
      var row := InsertImage(db, u, items[i].value);
      NewImageRowsSnoc(old(db.nextImageId), u, urls, i);
      saved := saved + [row];
      i := i + 1;
    }
    assert urls[..i] == urls;
    return Saved(saved);
  }

  /** One `UserImages.create`: the row gets the next id and goes to the end of the table. */
  method InsertImage(db: Database, u: int, url: string) returns (row: UserImage)
    requires db.Valid()
    modifies db`images, db`nextImageId
    ensures db.Valid()
    ensures row == UserImage(old(db.nextImageId), u, url)
    ensures db.images == old(db.images) + [row]
    ensures db.nextImageId == old(db.nextImageId) + 1
  {
    row := UserImage(db.nextImageId, u, url);
    assert forall img :: img in db.images ==> img.id < row.id;
    AppendKeepsAscending(db.images, row);
    db.images := db.images + [row];
    db.nextImageId := db.nextImageId + 1;
  }

  lemma {:induction false} AppendKeepsAscending(images: seq<UserImage>, row: UserImage)
    requires IdsAscending(images)
    requires forall img :: img in images ==> img.id < row.id
    ensures IdsAscending(images + [row])
  {
    var t := images + [row];
    forall i, j | 0 <= i < j < |t| ensures t[i].id < t[j].id {
      assert t[i] == images[i];
      if j == |images| {
        assert images[i] in images;
      } else {
        assert t[j] == images[j];
      }
    }
  }

  lemma {:induction false} NewImageRowsSnoc(firstId: int, u: int, urls: seq<string>, i: nat)
    requires i < |urls|
    ensures NewImageRows(firstId, u, urls[..i + 1]) == NewImageRows(firstId, u, urls[..i]) + [UserImage(firstId + i, u, urls[i])]
  {
  }

  lemma {:induction false} ImageUrlsOfAppend(a: seq<UserImage>, b: seq<UserImage>, u: int)
    ensures ImageUrlsOf(a + b, u) == ImageUrlsOf(a, u) + ImageUrlsOf(b, u)
  {
    if a == [] {
      assert a + b == b;
    } else {
      var head := if a[0].userId == u then [a[0].imgUrl] else [];
      assert (a + b)[0] == a[0];
      assert (a + b)[1..] == a[1..] + b;
      ImageUrlsOfAppend(a[1..], b, u);
      calc {
        ImageUrlsOf(a + b, u);
        head + ImageUrlsOf(a[1..] + b, u);
        head + (ImageUrlsOf(a[1..], u) + ImageUrlsOf(b, u));
        (head + ImageUrlsOf(a[1..], u)) + ImageUrlsOf(b, u);
      }
    }
  }

  lemma {:induction false} ImageUrlsOfNewRows(firstId: int, u: int, urls: seq<string>)
    decreases urls
    ensures ImageUrlsOf(NewImageRows(firstId, u, urls), u) == urls
  {
    if urls != [] {
      assert NewImageRows(firstId, u, urls)[1..] == NewImageRows(firstId + 1, u, urls[1..]);
      ImageUrlsOfNewRows(firstId + 1, u, urls[1..]);
    }
  }

  lemma {:induction false} ImageUrlsOfOtherUser(firstId: int, u: int, v: int, urls: seq<string>)
    requires v != u
    decreases urls
    ensures ImageUrlsOf(NewImageRows(firstId, u, urls), v) == []
  {
    if urls != [] {
      assert NewImageRows(firstId, u, urls)[1..] == NewImageRows(firstId + 1, u, urls[1..]);
      ImageUrlsOfOtherUser(firstId + 1, u, v, urls[1..]);
    }
  }

  /** Saving images appends their URLs, in order, to what `getUser` lists for that user, and to nobody else's list. */
  lemma {:induction false} SavedImagesAppearInProfile(old_images: seq<UserImage>, firstId: int, u: int, urls: seq<string>, v: int)
    ensures ImageUrlsOf(old_images + NewImageRows(firstId, u, urls), v)
         == ImageUrlsOf(old_images, v) + (if v == u then urls else [])
  {
    ImageUrlsOfAppend(old_images, NewImageRows(firstId, u, urls), v);
    if v == u {
      ImageUrlsOfNewRows(firstId, u, urls);
    } else {
      ImageUrlsOfOtherUser(firstId, u, v, urls);
    }
  }

  /** After a save, `getUser` lists the user's earlier photos followed by the saved ones, and every other profile is as before. */
  lemma {:induction false} GetUserAfterSave(users: map<int, User>, old_images: seq<UserImage>, firstId: int, u: int, urls: seq<string>, v: int)
    requires v in users
    ensures GetUser(users, old_images + NewImageRows(firstId, u, urls), v).value
         == GetUser(users, old_images, v).value.(images := GetUser(users, old_images, v).value.images + (if v == u then urls else []))
  {
    SavedImagesAppearInProfile(old_images, firstId, u, urls, v);
  }

  // ---------------------------------------------------------------- DELETE /deleteUserImage

  datatype DeleteOutcome = DeleteFailed | InvalidImageUrl | ImageNotFound | ImageDeleted(count: nat)

  /** `UserImages.destroy({ where: { userId, imgUrl } })`: every row of that pair goes, the rest keep their order. */
  function RemoveImage(images: seq<UserImage>, userId: int, url: string): (r: seq<UserImage>)
    ensures |r| <= |images|
    ensures forall x :: x in r <==> x in images && !(x.userId == userId && x.imgUrl == url)
  {
    if images == [] then []
    else (if images[0].userId == userId && images[0].imgUrl == url then [] else [images[0]]) + RemoveImage(images[1..], userId, url)
  }

  /** After a deletion the URL is gone from the owner's list, and every other user's list is as before. */
  lemma {:induction false} RemoveImageEffect(images: seq<UserImage>, userId: int, url: string, v: int)
    ensures url !in ImageUrlsOf(RemoveImage(images, userId, url), userId)
    ensures v != userId ==> ImageUrlsOf(RemoveImage(images, userId, url), v) == ImageUrlsOf(images, v)
  {
    if images != [] {
      RemoveImageEffect(images[1..], userId, url, v);
      var head := if images[0].userId == userId && images[0].imgUrl == url then [] else [images[0]];
      ImageUrlsOfAppend(head, RemoveImage(images[1..], userId, url), userId);
      ImageUrlsOfAppend(head, RemoveImage(images[1..], userId, url), v);
    }
  }

  /** After a deletion `getUser` no longer lists the URL for its owner, and shows every other profile as before. */
  lemma {:induction false} GetUserAfterDelete(users: map<int, User>, images: seq<UserImage>, userId: int, url: string, v: int)
    requires v in users
    ensures v == userId ==> url !in GetUser(users, RemoveImage(images, userId, url), v).value.images
    ensures v != userId ==> GetUser(users, RemoveImage(images, userId, url), v) == GetUser(users, images, v)
  {
    RemoveImageEffect(images, userId, url, v);
  }

  /**
   * `DELETE /deleteUserImage`. A missing URL fails (`match` on `undefined`); a URL the parser
   * rejects, or whose public id is empty, is refused before anything is deleted; a missing `userId`
   * fails in the query; otherwise the matching rows are deleted and none matching is a 404.
   */
  method DeleteUserImage(db: Database, imageUrl: Option<string>, userId: Option<int>) returns (r: DeleteOutcome)
    requires db.Valid()
    modifies db`images
    ensures db.Valid()
    ensures r == InvalidImageUrl <==> imageUrl.Some? && !TruthyText(ExtractPublicId(imageUrl.value))
    ensures r == DeleteFailed <==> imageUrl.None? || (TruthyText(ExtractPublicId(imageUrl.value)) && userId.None?)
    ensures r.ImageDeleted? || r == ImageNotFound ==>
      && imageUrl.Some? && userId.Some?
      && db.images == RemoveImage(old(db.images), userId.value, imageUrl.value)
      && (r == ImageNotFound <==> db.images == old(db.images))
    ensures !(r.ImageDeleted? || r == ImageNotFound) ==> db.images == old(db.images)
    ensures r.ImageDeleted? ==> r.count == |old(db.images)| - |db.images| > 0
  {
    if imageUrl.None? {
      return DeleteFailed;
    }
    var url := imageUrl.value;
    var publicId := ExtractPublicId(url);
    if !TruthyText(publicId) {
      return InvalidImageUrl;
    }
    if userId.None? {
      return DeleteFailed;
    }
    var count := DestroyImages(db, userId.value, url);
    if count == 0 {
      return ImageNotFound;
    }
    return ImageDeleted(count);
  }

  /** `UserImages.destroy` on the table itself, answering the number of rows it deleted. */
  method DestroyImages(db: Database, userId: int, url: string) returns (count: nat)
    requires db.Valid()
    modifies db`images
    ensures db.Valid()
    ensures db.images == RemoveImage(old(db.images), userId, url)
    ensures count == |old(db.images)| - |db.images|
    ensures count == 0 <==> db.images == old(db.images)
  {
    var before := db.images;
    var after := RemoveImage(before, userId, url);
    RemoveNothingKeeps(before, userId, url);
    RemoveImageKeepsAscending(before, userId, url);
    db.images := after;
    count := |before| - |after|;
  }

  /** Deleting rows keeps the rest in id order. */
  lemma {:induction false} RemoveImageKeepsAscending(images: seq<UserImage>, userId: int, url: string)
    requires IdsAscending(images)
    ensures IdsAscending(RemoveImage(images, userId, url))
  {
    if images != [] {
      var rest := images[1..];
      AscendingTail(images);
      RemoveImageKeepsAscending(rest, userId, url);
      var tail := RemoveImage(rest, userId, url);
      forall k | 0 <= k < |tail| ensures images[0].id < tail[k].id {
        assert tail[k] in tail;
        var m :| 0 <= m < |rest| && rest[m] == tail[k];
        assert rest[m] == images[m + 1];
      }
      if !(images[0].userId == userId && images[0].imgUrl == url) {
        ConsAscending(images[0], tail);
      }
    }
  }

  lemma {:induction false} AscendingTail(images: seq<UserImage>)
    requires images != [] && IdsAscending(images)
    ensures IdsAscending(images[1..])
  {
    var rest := images[1..];
    forall i, j | 0 <= i < j < |rest| ensures rest[i].id < rest[j].id {
      assert rest[i] == images[i + 1] && rest[j] == images[j + 1];
    }
  }

  lemma {:induction false} ConsAscending(x: UserImage, t: seq<UserImage>)
    requires IdsAscending(t)
    requires forall k :: 0 <= k < |t| ==> x.id < t[k].id
    ensures IdsAscending([x] + t)
  {
    var s := [x] + t;
    forall i, j | 0 <= i < j < |s| ensures s[i].id < s[j].id {
      assert s[j] == t[j - 1];
      if i > 0 {
        assert s[i] == t[i - 1];
      }
    }
  }

  /** Deleting leaves the table as it was exactly when it deletes no row. */
  lemma {:induction false} RemoveNothingKeeps(images: seq<UserImage>, userId: int, url: string)
    ensures |RemoveImage(images, userId, url)| == |images| <==> RemoveImage(images, userId, url) == images
  {
    if images != [] {
      RemoveNothingKeeps(images[1..], userId, url);
    }
  }
}
