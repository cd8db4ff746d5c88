/**
 * The user service: bookmarks switched on and off, the guarded profile update,
 * and the per-user statistics counts.
 */
module UserService {
  import opened Wrappers
  import opened Numeric
  import Text

  // --------------------------------------------------------------- bookmarks

  /** The status a bookmark is created with; the others are not distinguished here. */
  datatype Status = Ok | OtherStatus(code: int)

  /** A bookmark row: who, what kind of target, which target. */
  datatype Bookmark = Bookmark(userId: int, kind: int, targetId: int, createdDate: int, status: Status)

  predicate Matches(b: Bookmark, userId: int, kind: int, targetId: int) {
    b.userId == userId && b.kind == kind && b.targetId == targetId
  }

  predicate HasBookmark(bs: seq<Bookmark>, userId: int, kind: int, targetId: int) {
    exists i :: 0 <= i < |bs| && Matches(bs[i], userId, kind, targetId)
  }

  /** At most one bookmark per user, kind and target. */
  ghost predicate UniqueBookmarks(bs: seq<Bookmark>) {
    forall i, j :: 0 <= i < j < |bs| ==>
      !(bs[i].userId == bs[j].userId && bs[i].kind == bs[j].kind && bs[i].targetId == bs[j].targetId)
  }

  /** `FirstOrDefault` on the three keys: the index of the first match. */
  function FirstBookmark(bs: seq<Bookmark>, userId: int, kind: int, targetId: int): (r: Option<nat>)
    ensures r.Some? ==> r.value < |bs| && Matches(bs[r.value], userId, kind, targetId)
    ensures r.Some? ==> forall i :: 0 <= i < r.value ==> !Matches(bs[i], userId, kind, targetId)
    ensures r.None? <==> !HasBookmark(bs, userId, kind, targetId)
  {
    if |bs| == 0 then None
    else if Matches(bs[0], userId, kind, targetId) then Some(0)
    else
      var rest := FirstBookmark(bs[1..], userId, kind, targetId);
      if rest.None? then
        assert forall i :: 1 <= i < |bs| ==> bs[i] == bs[1..][i - 1];
        None
      else Some(rest.value + 1)
  }

  /**
   * The bookmark table after `SetBookmark`: switching off removes the first match,
   * switching on adds a bookmark with status Ok when none matches, and otherwise
   * the table is unchanged.
   */
  function Bookmarked(bs: seq<Bookmark>, userId: int, kind: int, targetId: int, on: bool, now: int): seq<Bookmark> {
    var found := FirstBookmark(bs, userId, kind, targetId);
    if !on && found.Some? then bs[..found.value] + bs[found.value + 1..]
    else if on && found.None? then bs + [Bookmark(userId, kind, targetId, now, Ok)]
    else bs
  }

  /** The bookmark store. */
  class BookmarkStore {
    var bookmarks: seq<Bookmark>

    constructor ()
      ensures bookmarks == []
    {
      bookmarks := [];
    }

    /** `SetBookmark`: always reports success; the table becomes `Bookmarked(...)`. */
    method SetBookmark(userId: int, kind: int, targetId: int, isBookmarked: bool, now: int)
      returns (isSuccess: bool, data: bool)
      modifies this
      ensures isSuccess && data
      ensures bookmarks == Bookmarked(old(bookmarks), userId, kind, targetId, isBookmarked, now)
    {
      var bookmark := FirstBookmark(bookmarks, userId, kind, targetId);
      if !isBookmarked {
        if bookmark.Some? {
          bookmarks := bookmarks[..bookmark.value] + bookmarks[bookmark.value + 1..];
        }
      } else {
        if bookmark.None? {
          bookmarks := bookmarks + [Bookmark(userId, kind, targetId, now, Ok)];
        }
      }
      isSuccess, data := true, true;
    }
  }

  /**
   * On a table with one bookmark per key, afterwards the bookmark exists exactly
   * when it was asked for, the table still has one bookmark per key, and a new
   * bookmark carries status Ok.
   */
  lemma BookmarkedSpec(bs: seq<Bookmark>, userId: int, kind: int, targetId: int, on: bool, now: int)
    requires UniqueBookmarks(bs)
    ensures var r := Bookmarked(bs, userId, kind, targetId, on, now);
      (HasBookmark(r, userId, kind, targetId) <==> on) && UniqueBookmarks(r)
    ensures on && !HasBookmark(bs, userId, kind, targetId) ==>
      Bookmarked(bs, userId, kind, targetId, on, now)[|bs|] == Bookmark(userId, kind, targetId, now, Ok)
  {
    var r := Bookmarked(bs, userId, kind, targetId, on, now);
    var found := FirstBookmark(bs, userId, kind, targetId);
    if !on && found.Some? {
      var k := found.value;
      assert forall i :: 0 <= i < |r| ==> r[i] == (if i < k then bs[i] else bs[i + 1]);
    } else if on && found.None? {
      assert r[|bs|] == Bookmark(userId, kind, targetId, now, Ok);
      assert Matches(r[|bs|], userId, kind, targetId);
    }
  }

  /** Setting the same bookmark state twice is the same as setting it once. */
  lemma BookmarkedIdempotent(bs: seq<Bookmark>, userId: int, kind: int, targetId: int, on: bool, now: int, later: int)
    requires UniqueBookmarks(bs)
    ensures var once := Bookmarked(bs, userId, kind, targetId, on, now);
      Bookmarked(once, userId, kind, targetId, on, later) == once
  {
    BookmarkedSpec(bs, userId, kind, targetId, on, now);
  }

  // ---------------------------------------------------------- profile update

  /** The settings a profile update copies from the model unchanged. */
  datatype UserSettings = UserSettings(apiToken: Option<string>, timezone: Option<string>,
                                       timeformat: Option<string>, playerTrackLimit: Option<int>,
                                       randomReleaseLimit: Option<Int16>, recentlyPlayedLimit: Option<int>,
                                       profile: Option<string>, doUseHtmlPlayer: bool,
                                       removeTrackFromQueAfterPlayed: bool, isPrivate: bool,
                                       ftpUrl: Option<string>, ftpDirectory: Option<string>,
                                       ftpUsername: Option<string>)

  /** A stored user. */
  datatype AppUser = AppUser(id: int, roadieId: int, userName: string, normalizedUserName: string,
                             email: string, normalizedEmail: string, concurrencyStamp: string,
                             settings: UserSettings, lastUpdated: Option<int>)

  /** The user doing the update. */
  datatype Performer = Performer(id: int, isAdmin: bool)

  /** The edited profile. */
  datatype UserModel = UserModel(userId: int, userName: string, email: string, concurrencyStamp: string,
                                 settings: UserSettings, password: Option<string>,
                                 passwordConfirmation: Option<string>)

  /** The answers of `UpdateProfile`, one per return in the order they are checked. */
  datatype ProfileOutcome =
    | UserNotFound(userId: int)
    | AccessDenied
    | StaleData
    | UsernameInUse
    | EmailInUse
    | PasswordMismatch
    | PasswordResetFailed
    | ProfileUpdated

  function FindUser(users: seq<AppUser>, roadieId: int): (r: Option<nat>)
    ensures r.Some? ==> r.value < |users| && users[r.value].roadieId == roadieId
    ensures r.None? ==> forall i :: 0 <= i < |users| ==> users[i].roadieId != roadieId
  {
    if |users| == 0 then None
    else if users[0].roadieId == roadieId then Some(0)
    else
      var rest := FindUser(users[1..], roadieId);
      if rest.None? then
        assert forall i :: 1 <= i < |users| ==> users[i] == users[1..][i - 1];
        None
      else Some(rest.value + 1)
  }

  predicate UserNameTaken(users: seq<AppUser>, normalized: string) {
    exists i :: 0 <= i < |users| && users[i].normalizedUserName == normalized
  }

  predicate EmailTaken(users: seq<AppUser>, normalized: string) {
    exists i :: 0 <= i < |users| && users[i].normalizedEmail == normalized
  }

  /** The guards of `UpdateProfile` in order; the first that fails decides the answer. */
  function ProfileGuard(users: seq<AppUser>, performer: Performer, model: UserModel): (r: Option<ProfileOutcome>)
    ensures FindUser(users, model.userId).None? <==> r == Some(UserNotFound(model.userId))
    ensures r.None? ==> FindUser(users, model.userId).Some?
    ensures r.None? ==> var u := users[FindUser(users, model.userId).value];
      (u.id == performer.id || performer.isAdmin)
      && u.concurrencyStamp == model.concurrencyStamp
      && (u.userName != model.userName ==> !UserNameTaken(users, Text.ToUpper(model.userName)))
      && (u.email != model.email ==> !EmailTaken(users, Text.ToUpper(model.email)))
  {
    var found := FindUser(users, model.userId);
    if found.None? then Some(UserNotFound(model.userId))
    else
      var u := users[found.value];
      if u.id != performer.id && !performer.isAdmin then Some(AccessDenied)
      else if u.concurrencyStamp != model.concurrencyStamp then Some(StaleData)
      else if u.userName != model.userName && UserNameTaken(users, Text.ToUpper(model.userName)) then Some(UsernameInUse)
      else if u.email != model.email && EmailTaken(users, Text.ToUpper(model.email)) then Some(EmailInUse)
      else None
  }

  /** The stored user after the field update. */
  function UpdatedUser(u: AppUser, model: UserModel, now: int, newStamp: string): (r: AppUser)
    ensures r.id == u.id && r.roadieId == u.roadieId
    ensures r.normalizedUserName == Text.ToUpper(r.userName) && r.normalizedEmail == Text.ToUpper(r.email)
  {
    u.(userName := model.userName, normalizedUserName := Text.ToUpper(model.userName),
       email := model.email, normalizedEmail := Text.ToUpper(model.email),
       settings := model.settings, lastUpdated := Some(now), concurrencyStamp := newStamp)
  }

  /** Password and confirmation both given and different. */
  predicate PasswordsDiffer(model: UserModel) {
    model.password.Some? && model.password.value != ""
    && model.passwordConfirmation.Some? && model.passwordConfirmation.value != ""
    && model.password.value != model.passwordConfirmation.value
  }

  /** Password and confirmation both given and equal: a reset is attempted. */
  predicate PasswordReset(model: UserModel) {
    model.password.Some? && model.password.value != ""
    && model.passwordConfirmation.Some? && model.passwordConfirmation.value != ""
    && model.password.value == model.passwordConfirmation.value
  }

  /** The user table. */
  class UserStore {
    var users: seq<AppUser>

    constructor (users: seq<AppUser>)
      ensures this.users == users
    {
      this.users := users;
    }

    /**
     * `UpdateProfile`: a failing guard answers and saves nothing. Otherwise the
     * user's fields are replaced and saved, and only then are the password and
     * its confirmation compared; `resetSucceeds` is the identity store's answer
     * to a password reset, and `newStamp` the fresh concurrency stamp.
     */
    method UpdateProfile(performer: Performer, model: UserModel, now: int, newStamp: string, resetSucceeds: bool)
      returns (r: ProfileOutcome)
      modifies this
      ensures ProfileGuard(old(users), performer, model).Some? ==>
        r == ProfileGuard(old(users), performer, model).value && users == old(users)
      ensures ProfileGuard(old(users), performer, model).None? ==>
        var i := FindUser(old(users), model.userId).value;
        users == old(users)[i := UpdatedUser(old(users)[i], model, now, newStamp)]
        && r == (if PasswordsDiffer(model) then PasswordMismatch
                 else if PasswordReset(model) && !resetSucceeds then PasswordResetFailed
                 else ProfileUpdated)
    {
      var found := FindUser(users, model.userId);
      if found.None? {
        return UserNotFound(model.userId);
      }
      var i := found.value;
      var user := users[i];
      if user.id != performer.id && !performer.isAdmin {
        return AccessDenied;
      }
      if user.concurrencyStamp != model.concurrencyStamp {
        return StaleData;
      }
      if user.userName != model.userName && UserNameTaken(users, Text.ToUpper(model.userName)) {
        return UsernameInUse;
      }
      if user.email != model.email && EmailTaken(users, Text.ToUpper(model.email)) {
        return EmailInUse;
      }
      users := users[i := UpdatedUser(user, model, now, newStamp)];
      if model.password.Some? && model.password.value != ""
         && model.passwordConfirmation.Some? && model.passwordConfirmation.value != "" {
        if model.password.value != model.passwordConfirmation.value {
          return PasswordMismatch;
        }
        if !resetSucceeds {
          return PasswordResetFailed;
        }
      }
      r := ProfileUpdated;
    }
  }

  /** Every stored user's normalised names are the upper-cased names, and no two users share one. */
  ghost predicate ConsistentUsers(users: seq<AppUser>) {
    (forall i :: 0 <= i < |users| ==>
       users[i].normalizedUserName == Text.ToUpper(users[i].userName)
       && users[i].normalizedEmail == Text.ToUpper(users[i].email))
    && (forall i, j :: 0 <= i < j < |users| ==>
          users[i].normalizedUserName != users[j].normalizedUserName
          && users[i].normalizedEmail != users[j].normalizedEmail)
  }

  /** A profile update that passes its guards keeps user names and emails unique. */
  lemma UpdateKeepsUsersConsistent(users: seq<AppUser>, performer: Performer, model: UserModel, now: int,
                                   newStamp: string)
    requires ConsistentUsers(users)
    requires ProfileGuard(users, performer, model).None?
    ensures var i := FindUser(users, model.userId).value;
      ConsistentUsers(users[i := UpdatedUser(users[i], model, now, newStamp)])
  {
    var i := FindUser(users, model.userId).value;
    var u := UpdatedUser(users[i], model, now, newStamp);
    var r := users[i := u];
    forall j, k | 0 <= j < k < |r|
      ensures r[j].normalizedUserName != r[k].normalizedUserName && r[j].normalizedEmail != r[k].normalizedEmail
    {
      if j == i || k == i {
        var other := if j == i then k else j;
        if users[i].userName == model.userName {
          assert u.normalizedUserName == users[i].normalizedUserName;
        } else {
          assert users[other].normalizedUserName != u.normalizedUserName;
        }
        if users[i].email == model.email {
          assert u.normalizedEmail == users[i].normalizedEmail;
        } else {
          assert users[other].normalizedEmail != u.normalizedEmail;
        }
      }
    }
  }

  /**
   * The name check also sees the user being edited: a permitted, current edit
   * that changes the name to another spelling of the same upper-cased name is
   * refused as a name already in use, whatever the rest of the table holds.
   */
  lemma OwnNameRespellingRefused(users: seq<AppUser>, performer: Performer, model: UserModel, k: nat)
    requires FindUser(users, model.userId) == Some(k)
    requires users[k].id == performer.id || performer.isAdmin
    requires users[k].concurrencyStamp == model.concurrencyStamp
    requires users[k].userName != model.userName
    requires users[k].normalizedUserName == Text.ToUpper(model.userName)
    ensures ProfileGuard(users, performer, model) == Some(UsernameInUse)
  {
    assert UserNameTaken(users, Text.ToUpper(model.userName)) by {
      assert users[k].normalizedUserName == Text.ToUpper(model.userName);
    }
  }

  /**
   * The name check also sees the user being edited: changing only the case of
   * one's own name ("bob" to "Bob") is refused as a name already in use.
   */
  lemma RenameCaseOnlyRefused(u: AppUser, model: UserModel)
    requires u.userName == "bob" && u.normalizedUserName == "BOB" && u.id == 7 && u.roadieId == 70
    requires model.userId == 70 && model.userName == "Bob" && model.concurrencyStamp == u.concurrencyStamp
    ensures ProfileGuard([u], Performer(7, false), model) == Some(UsernameInUse)
  {
    assert Text.ToUpper("Bob") == "BOB";
    OwnNameRespellingRefused([u], Performer(7, false), model, 0);
  }

  // -------------------------------------------------------------- statistics

  /** One row of a user's artist, release or track table, as the statistics read it. */
  datatype UserRating = UserRating(rating: int, isFavorite: Option<bool>, isDisliked: Option<bool>,
                                   playedCount: Option<int>)

  /** `rows.Where(p).Count()`. */
  function CountWhere(rows: seq<UserRating>, p: UserRating -> bool): (r: nat)
    ensures r <= |rows|
    ensures r == 0 <==> forall i :: 0 <= i < |rows| ==> !p(rows[i])
    ensures r == |rows| <==> forall i :: 0 <= i < |rows| ==> p(rows[i])
  {
    if |rows| == 0 then 0
    else
      assert forall i :: 1 <= i < |rows| ==> rows[i] == rows[1..][i - 1];
      (if p(rows[0]) then 1 else 0) + CountWhere(rows[1..], p)
  }

  predicate IsRated(x: UserRating) { x.rating > 0 }
  predicate IsFavorited(x: UserRating) { x.isFavorite.GetOr(false) }
  predicate IsDisliked(x: UserRating) { x.isDisliked.GetOr(false) }

  /** `Where(PlayedCount.HasValue).Select(PlayedCount).Sum()`. */
  function PlayedSum(rows: seq<UserRating>): (r: int)
    ensures (forall i :: 0 <= i < |rows| && rows[i].playedCount.Some? ==> rows[i].playedCount.value >= 0) ==> r >= 0
    ensures (forall i :: 0 <= i < |rows| ==> rows[i].playedCount.None?) ==> r == 0
  {
    if |rows| == 0 then 0
    else
      assert forall i :: 1 <= i < |rows| ==> rows[i] == rows[1..][i - 1];
      rows[0].playedCount.GetOr(0) + PlayedSum(rows[1..])
  }

  datatype UserStatistics = UserStatistics(
    ratedArtists: nat, favoritedArtists: nat, dislikedArtists: nat,
    ratedReleases: nat, favoritedReleases: nat, dislikedReleases: nat,
    ratedTracks: nat, playedTracks: int, favoritedTracks: nat, dislikedTracks: nat)

  /** The statistics of one user from their artist, release and track rows. */
  function Statistics(artists: seq<UserRating>, releases: seq<UserRating>, tracks: seq<UserRating>): (r: UserStatistics)
    ensures r.ratedArtists <= |artists| && r.favoritedArtists <= |artists| && r.dislikedArtists <= |artists|
    ensures r.ratedReleases <= |releases| && r.favoritedReleases <= |releases| && r.dislikedReleases <= |releases|
    ensures r.ratedTracks <= |tracks| && r.favoritedTracks <= |tracks| && r.dislikedTracks <= |tracks|
  {
    UserStatistics(CountWhere(artists, IsRated), CountWhere(artists, IsFavorited), CountWhere(artists, IsDisliked),
                   CountWhere(releases, IsRated), CountWhere(releases, IsFavorited), CountWhere(releases, IsDisliked),
                   CountWhere(tracks, IsRated), PlayedSum(tracks), CountWhere(tracks, IsFavorited),
                   CountWhere(tracks, IsDisliked))
  }

  lemma {:induction false} CountWhereAppend(a: seq<UserRating>, b: seq<UserRating>, p: UserRating -> bool)
    ensures CountWhere(a + b, p) == CountWhere(a, p) + CountWhere(b, p)
  {
    if |a| > 0 {
      assert (a + b)[1..] == a[1..] + b;
      CountWhereAppend(a[1..], b, p);
    } else {
      assert a + b == b;
    }
  }

  lemma {:induction false} PlayedSumAppend(a: seq<UserRating>, b: seq<UserRating>)
    ensures PlayedSum(a + b) == PlayedSum(a) + PlayedSum(b)
  {
    if |a| > 0 {
      assert (a + b)[1..] == a[1..] + b;
      PlayedSumAppend(a[1..], b);
    } else {
      assert a + b == b;
    }
  }

  /**
   * A row with a null flag counts as neither favourite nor disliked, and a row
   * with no play count adds nothing to the played total.
   */
  lemma NullRowAddsNothing(rows: seq<UserRating>, x: UserRating)
    requires x.isFavorite.None? && x.isDisliked.None? && x.playedCount.None?
    ensures CountWhere(rows + [x], IsFavorited) == CountWhere(rows, IsFavorited)
    ensures CountWhere(rows + [x], IsDisliked) == CountWhere(rows, IsDisliked)
    ensures PlayedSum(rows + [x]) == PlayedSum(rows)
  {
    CountWhereAppend(rows, [x], IsFavorited);
    CountWhereAppend(rows, [x], IsDisliked);
    PlayedSumAppend(rows, [x]);
  }
}
