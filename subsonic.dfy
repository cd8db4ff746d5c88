/**
 * The Subsonic API service: query sanitising, playlist update and delete with
 * their ownership check, the saved play queue, rating and star dispatch,
 * artist index grouping, the fixed music folders and chat messages.
 */
module Subsonic {
  import opened Wrappers
  import opened Numeric
  import Text

  const SubsonicVersion: string := "1.16.1"

  /** The Subsonic error codes the modelled routines answer with. */
  datatype ErrorCode =
    | RequiredParameterMissing
    | UserIsNotAuthorizedForGivenOperation
    | TheRequestedDataWasNotFound
    | OtherError(code: int)

  /** Exceptions that escape a routine. */
  datatype Exception = NotImplemented | InvalidOperation | ArgumentOutOfRange

  /** The answer of a routine: success, an error code, or an exception. */
  datatype SubsonicResult = Ok | Error(code: ErrorCode) | Thrown(e: Exception)

  // ------------------------------------------------------------------ search

  /** `Search`: every '*', '%' and ';' is removed from the (already URL-decoded) query. */
  function SanitizeQuery(query: string): (r: string)
    ensures '*' !in r && '%' !in r && ';' !in r
    ensures forall c :: c != '*' && c != '%' && c != ';' ==> (c in r <==> c in query)
    ensures |r| == |query| - Text.Count(query, '*') - Text.Count(Text.Remove(query, '*'), '%')
                    - Text.Count(Text.Remove(Text.Remove(query, '*'), '%'), ';')
    ensures r == Text.Replace(Text.Replace(Text.Replace(query, "*", ""), "%", ""), ";", "")
  {
    var a := Text.Remove(query, '*');
    var b := Text.Remove(a, '%');
    Text.RemoveSpec(query, '*');
    Text.RemoveSpec(a, '%');
    Text.RemoveSpec(b, ';');
    Text.RemoveIsReplace(query, '*');
    Text.RemoveIsReplace(a, '%');
    Text.RemoveIsReplace(b, ';');
    Text.Remove(b, ';')
  }

  /** Removing a character that does not occur changes nothing. */
  lemma {:induction false} RemoveAbsent(s: string, c: char)
    requires c !in s
    ensures Text.Remove(s, c) == s
  {
    if |s| > 0 {
      assert c !in s[1..];
      RemoveAbsent(s[1..], c);
      assert s == [s[0]] + s[1..];
    }
  }

  /** Sanitising twice is sanitising once. */
  lemma SanitizeIdempotent(query: string)
    ensures SanitizeQuery(SanitizeQuery(query)) == SanitizeQuery(query)
  {
    var r := SanitizeQuery(query);
    RemoveAbsent(r, '*');
    RemoveAbsent(r, '%');
    RemoveAbsent(r, ';');
  }

  // --------------------------------------------------------------- playlists

  /** The caller: database id and admin flag. */
  datatype Caller = Caller(id: int, isAdmin: bool)

  /** A stored playlist, under its public id. */
  datatype PlaylistRec = PlaylistRec(id: int, userId: int, name: string, isPublic: bool, lastUpdated: Option<int>)

  /** A playlist entry. */
  datatype PlaylistTrack = PlaylistTrack(playlistId: int, listNumber: int, trackId: int)

  /** A track of the track table: database id and public id. */
  datatype TrackKey = TrackKey(id: int, roadieId: int)

  /** A saved play-queue entry. */
  datatype UserQue = UserQue(userId: int, trackId: int, queSortOrder: Int16, isCurrent: bool, position: Option<int>)

  /** A chat message. */
  datatype ChatMessage = ChatMessage(userId: int, message: string)

  /**
   * The checks `UpdatePlaylist` and `DeletePlaylist` share, in order: no playlist
   * id, an unknown playlist, a caller who is neither owner nor admin. An unknown
   * playlist is answered not-found here (see `PlaylistNotFoundAsWritten`).
   */
  function PlaylistGuard(playlists: map<int, PlaylistRec>, caller: Caller, playlistId: Option<int>)
    : (r: Option<SubsonicResult>)
    ensures r.None? <==> playlistId.Some? && playlistId.value in playlists
                         && (playlists[playlistId.value].userId == caller.id || caller.isAdmin)
    ensures r.Some? && playlistId.Some? && playlistId.value in playlists ==>
      r == Some(Error(UserIsNotAuthorizedForGivenOperation))
    ensures r.Some? && !(playlistId.Some? && playlistId.value in playlists) ==>
      r == Some(Error(TheRequestedDataWasNotFound))
  {
    if playlistId.None? then Some(Error(TheRequestedDataWasNotFound))
    else if playlistId.value !in playlists then Some(Error(TheRequestedDataWasNotFound))
    else if playlists[playlistId.value].userId != caller.id && !caller.isAdmin then
      Some(Error(UserIsNotAuthorizedForGivenOperation))
    else None
  }

  /**
   * The unknown-playlist answer as the code writes it: its message reads
   * `request.TrackId.Value`, which throws when the request names no track.
   */
  function PlaylistNotFoundAsWritten(requestHasTrackId: bool): (r: SubsonicResult)
    ensures r.Thrown? <==> !requestHasTrackId
  {
    if requestHasTrackId then Error(TheRequestedDataWasNotFound) else Thrown(InvalidOperation)
  }

  /**
   * The discrepancy: a playlist request names a playlist and no track, so an
   * unknown playlist id ends in an exception rather than the not-found answer.
   */
  lemma PlaylistNotFoundThrows(playlists: map<int, PlaylistRec>, caller: Caller, playlistId: int)
    requires playlistId !in playlists
    ensures PlaylistNotFoundAsWritten(false) == Thrown(InvalidOperation)
    ensures PlaylistGuard(playlists, caller, Some(playlistId)) == Some(Error(TheRequestedDataWasNotFound))
  {
  }

  /** The tracks of the table whose public id is among the requested ids, in table order. */
  function Submitted(table: seq<TrackKey>, songIds: seq<Option<int>>): (r: seq<TrackKey>)
    ensures forall t :: t in r <==> t in table && Some(t.roadieId) in songIds
  {
    if |table| == 0 then []
    else
      var rest := Submitted(table[1..], songIds);
      assert forall t :: t in table <==> t == table[0] || t in table[1..];
      if Some(table[0].roadieId) in songIds then [table[0]] + rest else rest
  }

  predicate OnPlaylist(rows: seq<PlaylistTrack>, playlistId: int, trackId: int) {
    exists k :: 0 <= k < |rows| && rows[k].playlistId == playlistId && rows[k].trackId == trackId
  }

  /** `Tracks.Max(ListNumber) ?? 0`: the highest number on the playlist, 0 for none. */
  function MaxListNumber(rows: seq<PlaylistTrack>, playlistId: int): (r: int)
    ensures forall k :: 0 <= k < |rows| && rows[k].playlistId == playlistId ==> rows[k].listNumber <= r
    ensures r == 0 || exists k :: 0 <= k < |rows| && rows[k].playlistId == playlistId && rows[k].listNumber == r
  {
    if |rows| == 0 then 0
    else
      var rest := MaxListNumber(rows[1..], playlistId);
      assert forall k :: 1 <= k < |rows| ==> rows[k] == rows[1..][k - 1];
      if rows[0].playlistId != playlistId then rest
      else if !(exists k :: 1 <= k < |rows| && rows[k].playlistId == playlistId) then rows[0].listNumber
      else if rows[0].listNumber > rest then rows[0].listNumber
      else rest
  }

  /**
   * The entries after appending the submitted tracks one by one: a track already
   * on the playlist is skipped, any other gets the next number after `max`.
   */
  function Appended(rows: seq<PlaylistTrack>, playlistId: int, submitted: seq<TrackKey>, max: int)
    : (r: seq<PlaylistTrack>)
    ensures |r| >= |rows| && r[..|rows|] == rows
  {
    if |submitted| == 0 then rows
    else
      var acc := Appended(rows, playlistId, submitted[..|submitted| - 1], max);
      var t := submitted[|submitted| - 1];
      if OnPlaylist(acc, playlistId, t.id) then acc
      else acc + [PlaylistTrack(playlistId, max + |acc| - |rows| + 1, t.id)]
  }

  /**
   * What appending does: the old entries stay first; every new entry belongs to
   * the playlist, is numbered consecutively after `max`, is for a track that was
   * not on the playlist and that no other new entry repeats; and every submitted
   * track ends up on the playlist.
   */
  lemma AppendedSpec(rows: seq<PlaylistTrack>, playlistId: int, submitted: seq<TrackKey>, max: int)
    ensures var r := Appended(rows, playlistId, submitted, max);
      (forall j :: |rows| <= j < |r| ==>
         r[j].playlistId == playlistId && r[j].listNumber == max + (j - |rows|) + 1
         && !OnPlaylist(rows, playlistId, r[j].trackId))
      && (forall i, j :: |rows| <= i < j < |r| ==> r[i].trackId != r[j].trackId)
      && (forall t :: t in submitted ==> OnPlaylist(r, playlistId, t.id))
  {
    AppendedNew(rows, playlistId, submitted, max);
    assert FreshEntries(rows, playlistId, Appended(rows, playlistId, submitted, max), max);
    AppendedDistinct(rows, playlistId, submitted, max);
    assert DistinctNew(rows, Appended(rows, playlistId, submitted, max));
    AppendedCovers(rows, playlistId, submitted, max);
  }

  /** Every entry after the old ones belongs to the playlist, is numbered after `max` in turn and was not on it. */
  ghost predicate FreshEntries(rows: seq<PlaylistTrack>, playlistId: int, r: seq<PlaylistTrack>, max: int) {
    forall j :: |rows| <= j < |r| ==>
      r[j].playlistId == playlistId && r[j].listNumber == max + (j - |rows|) + 1
      && !OnPlaylist(rows, playlistId, r[j].trackId)
  }

  /** Each new entry belongs to the playlist, is numbered after `max` in turn and was not on the playlist. */
  lemma {:induction false} AppendedNew(rows: seq<PlaylistTrack>, playlistId: int, submitted: seq<TrackKey>, max: int)
    ensures FreshEntries(rows, playlistId, Appended(rows, playlistId, submitted, max), max)
  {
    if |submitted| > 0 {
      var init := submitted[..|submitted| - 1];
      var t := submitted[|submitted| - 1];
      AppendedNew(rows, playlistId, init, max);
      var acc := Appended(rows, playlistId, init, max);
      assert FreshEntries(rows, playlistId, acc, max);
      var r := Appended(rows, playlistId, submitted, max);
      if !OnPlaylist(acc, playlistId, t.id) {
        assert r == acc + [PlaylistTrack(playlistId, max + |acc| - |rows| + 1, t.id)];
        forall k | 0 <= k < |rows| && rows[k].playlistId == playlistId
          ensures rows[k].trackId != t.id
        {
          assert acc[k] == rows[k];
        }
        forall j | |rows| <= j < |r|
          ensures r[j].playlistId == playlistId && r[j].listNumber == max + (j - |rows|) + 1
                  && !OnPlaylist(rows, playlistId, r[j].trackId)
        {
          if j < |acc| {
            assert r[j] == acc[j];
          }
        }
      } else {
        assert r == acc;
      }
    }
  }

  /** No two entries after the old ones are for the same track. */
  ghost predicate DistinctNew(rows: seq<PlaylistTrack>, r: seq<PlaylistTrack>) {
    forall i, j :: |rows| <= i < j < |r| ==> r[i].trackId != r[j].trackId
  }

  /** No two new entries are for the same track. */
  lemma {:induction false} AppendedDistinct(rows: seq<PlaylistTrack>, playlistId: int, submitted: seq<TrackKey>, max: int)
    ensures DistinctNew(rows, Appended(rows, playlistId, submitted, max))
  {
    if |submitted| > 0 {
      var init := submitted[..|submitted| - 1];
      var t := submitted[|submitted| - 1];
      AppendedDistinct(rows, playlistId, init, max);
      AppendedNew(rows, playlistId, init, max);
      var acc := Appended(rows, playlistId, init, max);
      assert FreshEntries(rows, playlistId, acc, max) && DistinctNew(rows, acc);
      var r := Appended(rows, playlistId, submitted, max);
      if !OnPlaylist(acc, playlistId, t.id) {
        assert r == acc + [PlaylistTrack(playlistId, max + |acc| - |rows| + 1, t.id)];
        forall i, j | |rows| <= i < j < |r|
          ensures r[i].trackId != r[j].trackId
        {
          assert r[i] == acc[i];
          if j < |acc| {
            assert r[j] == acc[j];
          } else {
            assert acc[i].playlistId == playlistId;
            assert r[j].trackId == t.id;
          }
        }
      } else {
        assert r == acc;
      }
    }
  }

  /** Every submitted track ends up on the playlist. */
  lemma {:induction false} AppendedCovers(rows: seq<PlaylistTrack>, playlistId: int, submitted: seq<TrackKey>, max: int)
    ensures forall t :: t in submitted ==> OnPlaylist(Appended(rows, playlistId, submitted, max), playlistId, t.id)
  {
    if |submitted| > 0 {
      var init := submitted[..|submitted| - 1];
      var t := submitted[|submitted| - 1];
      AppendedCovers(rows, playlistId, init, max);
      var acc := Appended(rows, playlistId, init, max);
      var r := Appended(rows, playlistId, submitted, max);
      assert forall x :: x in submitted ==> x in init || x == t;
      if !OnPlaylist(acc, playlistId, t.id) {
        forall x | x in init
          ensures OnPlaylist(r, playlistId, x.id)
        {
          var k :| 0 <= k < |acc| && acc[k].playlistId == playlistId && acc[k].trackId == x.id;
          assert r[k] == acc[k];
        }
        assert r[|acc|].trackId == t.id && r[|acc|].playlistId == playlistId;
      }
    }
  }

  /**
   * The appending loop of `UpdatePlaylist`: each submitted track not yet on the
   * playlist gets the next number after the playlist's highest.
   */
  method AppendSubmitted(rows0: seq<PlaylistTrack>, playlistId: int, submitted: seq<TrackKey>)
    returns (rows: seq<PlaylistTrack>)
    ensures rows == Appended(rows0, playlistId, submitted, MaxListNumber(rows0, playlistId))
  {
    ghost var max := MaxListNumber(rows0, playlistId);
    var listNumber := MaxListNumber(rows0, playlistId);
    rows := rows0;
    for i := 0 to |submitted|
      invariant rows == Appended(rows0, playlistId, submitted[..i], max)
      invariant listNumber == max + |rows| - |rows0|
    {
      assert submitted[..i + 1][..i] == submitted[..i];
      if !OnPlaylist(rows, playlistId, submitted[i].id) {
        listNumber := listNumber + 1;
        rows := rows + [PlaylistTrack(playlistId, listNumber, submitted[i].id)];
      }
    }
    assert submitted[..|submitted|] == submitted;
  }

  /** The store of the Subsonic routines. */
  class SubsonicStore {
    var playlists: map<int, PlaylistRec>
    var playlistTracks: seq<PlaylistTrack>
    var ques: seq<UserQue>
    var chatMessages: seq<ChatMessage>

    constructor (playlists: map<int, PlaylistRec>, playlistTracks: seq<PlaylistTrack>)
      ensures this.playlists == playlists && this.playlistTracks == playlistTracks
      ensures ques == [] && chatMessages == []
    {
      this.playlists := playlists;
      this.playlistTracks := playlistTracks;
      ques := [];
      chatMessages := [];
    }

    /**
     * `UpdatePlaylist`: after the shared checks, a null name or visibility keeps
     * the stored one, and the requested tracks not yet on the playlist are
     * appended after its highest number. Asking to remove songs throws before
     * anything is saved.
     */
    method UpdatePlaylist(caller: Caller, playlistId: Option<int>, name: Option<string>, isPublic: Option<bool>,
                          songIdsToAdd: Option<seq<Option<int>>>, songIndexesToRemove: Option<seq<int>>,
                          trackTable: seq<TrackKey>, now: int) returns (r: SubsonicResult)
      modifies this
      ensures ques == old(ques) && chatMessages == old(chatMessages)
      ensures PlaylistGuard(old(playlists), caller, playlistId).Some? ==>
        r == PlaylistGuard(old(playlists), caller, playlistId).value
        && playlists == old(playlists) && playlistTracks == old(playlistTracks)
      ensures PlaylistGuard(old(playlists), caller, playlistId).None?
              && songIndexesToRemove.Some? && |songIndexesToRemove.value| > 0 ==>
        r == Thrown(NotImplemented) && playlists == old(playlists) && playlistTracks == old(playlistTracks)
      ensures PlaylistGuard(old(playlists), caller, playlistId).None?
              && !(songIndexesToRemove.Some? && |songIndexesToRemove.value| > 0) ==>
        var p := old(playlists)[playlistId.value];
        r == Ok
        && playlists == old(playlists)[playlistId.value := p.(name := name.GetOr(p.name),
                                                              isPublic := isPublic.GetOr(p.isPublic),
                                                              lastUpdated := Some(now))]
        && playlistTracks ==
             if songIdsToAdd.Some? && |songIdsToAdd.value| > 0 then
               Appended(old(playlistTracks), p.id, Submitted(trackTable, songIdsToAdd.value),
                        MaxListNumber(old(playlistTracks), p.id))
             else old(playlistTracks)
    {
      var guard := PlaylistGuard(playlists, caller, playlistId);
      if guard.Some? {
        return guard.value;
      }
      var p := playlists[playlistId.value];
      var updated := p.(name := name.GetOr(p.name), isPublic := isPublic.GetOr(p.isPublic), lastUpdated := Some(now));
      var rows := playlistTracks;
      if songIdsToAdd.Some? && |songIdsToAdd.value| > 0 {
        rows := AppendSubmitted(playlistTracks, p.id, Submitted(trackTable, songIdsToAdd.value));
      }
      if songIndexesToRemove.Some? && |songIndexesToRemove.value| > 0 {
        return Thrown(NotImplemented);
      }
      // Saving: the edits become the stored state.
      playlists := playlists[playlistId.value := updated];
      playlistTracks := rows;
      r := Ok;
    }

    /** `DeletePlaylist`: after the shared checks, the playlist is removed. */
    method DeletePlaylist(caller: Caller, playlistId: Option<int>) returns (r: SubsonicResult)
      modifies this
      ensures playlistTracks == old(playlistTracks) && ques == old(ques) && chatMessages == old(chatMessages)
      ensures PlaylistGuard(old(playlists), caller, playlistId).Some? ==>
        r == PlaylistGuard(old(playlists), caller, playlistId).value && playlists == old(playlists)
      ensures PlaylistGuard(old(playlists), caller, playlistId).None? ==>
        r == Ok && playlists == old(playlists) - {playlistId.value}
    {
      var guard := PlaylistGuard(playlists, caller, playlistId);
      if guard.Some? {
        return guard.value;
      }
      playlists := playlists - {playlistId.value};
      r := Ok;
    }

    /**
     * `SavePlayQueue`: the user's queue is replaced by one entry per listed track,
     * in order. Any other user's entries are kept.
     */
    method SavePlayQueue(userId: int, ids: Option<seq<int>>, listed: seq<TrackKey>, current: Option<int>,
                         position: Option<int>) returns (r: SubsonicResult)
      modifies this
      ensures r == Ok
      ensures playlists == old(playlists) && playlistTracks == old(playlistTracks)
      ensures chatMessages == old(chatMessages)
      ensures ques == OtherUsersQues(old(ques), userId)
                      + (if ids.Some? && |ids.value| > 0 then QueEntries(userId, listed, current, position) else [])
    {
      var kept := KeepOtherUsers(ques, userId);
      if ids.Some? && |ids.value| > 0 {
        var added := BuildQue(userId, listed, current, position);
        kept := kept + added;
      }
      ques := kept;
      r := Ok;
    }

    /** `AddChatMessage`: an empty or missing message is refused; otherwise it is stored. */
    method AddChatMessage(userId: int, message: Option<string>) returns (r: SubsonicResult)
      modifies this
      ensures playlists == old(playlists) && playlistTracks == old(playlistTracks) && ques == old(ques)
      ensures (message.None? || message.value == "") ==>
        r == Error(RequiredParameterMissing) && chatMessages == old(chatMessages)
      ensures !(message.None? || message.value == "") ==>
        r == Ok && chatMessages == old(chatMessages) + [ChatMessage(userId, message.value)]
    {
      if message.None? || message.value == "" {
        return Error(RequiredParameterMissing);
      }
      chatMessages := chatMessages + [ChatMessage(userId, message.value)];
      r := Ok;
    }
  }

  /** The queue entries of other users, in order. */
  function OtherUsersQues(ques: seq<UserQue>, userId: int): (r: seq<UserQue>)
    ensures forall q :: q in r <==> q in ques && q.userId != userId
  {
    if |ques| == 0 then []
    else
      var rest := OtherUsersQues(ques[1..], userId);
      assert forall q :: q in ques <==> q == ques[0] || q in ques[1..];
      if ques[0].userId != userId then [ques[0]] + rest else rest
  }

  lemma {:induction false} OtherUsersQuesSnoc(ques: seq<UserQue>, q: UserQue, userId: int)
    ensures OtherUsersQues(ques + [q], userId) == OtherUsersQues(ques, userId) + (if q.userId != userId then [q] else [])
  {
    if |ques| > 0 {
      assert (ques + [q])[1..] == ques[1..] + [q];
      OtherUsersQuesSnoc(ques[1..], q, userId);
    }
  }

  /** The new queue: entry k is the k-th listed track, numbered k+1 (as a `short`), current if it matches. */
  function QueEntries(userId: int, listed: seq<TrackKey>, current: Option<int>, position: Option<int>)
    : (r: seq<UserQue>)
    ensures |r| == |listed|
  {
    seq(|listed|, k requires 0 <= k < |listed| =>
      UserQue(userId, listed[k].id, Wrap16(k + 1), current == Some(listed[k].roadieId),
              if current == Some(listed[k].roadieId) then position else None))
  }

  /**
   * A queue of fewer than 32768 tracks is numbered 1..n; an entry is current
   * exactly when it is the `current` track, only current entries carry the
   * position, and with distinct tracks at most one entry is current.
   */
  lemma QueEntriesSpec(userId: int, listed: seq<TrackKey>, current: Option<int>, position: Option<int>)
    requires |listed| < 0x8000
    ensures var r := QueEntries(userId, listed, current, position);
      (forall k :: 0 <= k < |r| ==> r[k].queSortOrder == k + 1 && r[k].userId == userId
                                    && r[k].trackId == listed[k].id
                                    && (r[k].isCurrent <==> current == Some(listed[k].roadieId))
                                    && (r[k].isCurrent ==> r[k].position == position)
                                    && (!r[k].isCurrent ==> r[k].position.None?))
    ensures (forall i, j :: 0 <= i < j < |listed| ==> listed[i].roadieId != listed[j].roadieId) ==>
      var r := QueEntries(userId, listed, current, position);
      forall i, j :: 0 <= i < j < |r| && r[i].isCurrent ==> !r[j].isCurrent
  {
  }

  /** The loop of `SavePlayQueue` that keeps the other users' entries, in order. */
  method KeepOtherUsers(stored: seq<UserQue>, userId: int) returns (kept: seq<UserQue>)
    ensures kept == OtherUsersQues(stored, userId)
  {
    kept := [];
    for i := 0 to |stored|
      invariant kept == OtherUsersQues(stored[..i], userId)
    {
      assert stored[..i + 1] == stored[..i] + [stored[i]];
      OtherUsersQuesSnoc(stored[..i], stored[i], userId);
      if stored[i].userId != userId {
        kept := kept + [stored[i]];
      }
    }
    assert stored[..|stored|] == stored;
  }

  /** The loop of `SavePlayQueue` that numbers the listed tracks with a `short` counter. */
  method BuildQue(userId: int, listed: seq<TrackKey>, current: Option<int>, position: Option<int>)
    returns (added: seq<UserQue>)
    ensures added == QueEntries(userId, listed, current, position)
  {
    var queSortOrder: Int16 := 0;
    added := [];
    for i := 0 to |listed|
      invariant |added| == i && queSortOrder == Wrap16(i)
      invariant added == QueEntries(userId, listed[..i], current, position)
    {
      WrapStep(i);
      queSortOrder := Wrap16(queSortOrder + 1);
      var isCurrent := current == Some(listed[i].roadieId);
      added := added + [UserQue(userId, listed[i].id, queSortOrder, isCurrent,
                                if isCurrent then position else None)];
    }
    assert listed[..|listed|] == listed;
  }

  // ------------------------------------------------------ ratings and stars

  /** What a rating or star applies to. */
  datatype Target = TrackTarget(trackId: int) | ReleaseTarget(releaseId: int) | ArtistTarget(artistId: int)

  /** The id the request names first, checking track, then release, then artist. */
  function FirstTarget(trackId: Option<int>, releaseId: Option<int>, artistId: Option<int>): (r: Option<Target>)
    ensures r.None? <==> trackId.None? && releaseId.None? && artistId.None?
    ensures trackId.Some? ==> r == Some(TrackTarget(trackId.value))
    ensures trackId.None? && releaseId.Some? ==> r == Some(ReleaseTarget(releaseId.value))
    ensures trackId.None? && releaseId.None? && artistId.Some? ==> r == Some(ArtistTarget(artistId.value))
  {
    if trackId.Some? then Some(TrackTarget(trackId.value))
    else if releaseId.Some? then Some(ReleaseTarget(releaseId.value))
    else if artistId.Some? then Some(ArtistTarget(artistId.value))
    else None
  }

  /**
   * `SetRating`: an unknown user is refused; otherwise the first named target is
   * rated, and anything but a successful rating is answered not-found.
   * `rated(t)` is whether rating `t` succeeded.
   */
  function SetRating(userFound: bool, trackId: Option<int>, releaseId: Option<int>, artistId: Option<int>,
                     rated: Target -> bool): (r: SubsonicResult)
    ensures !userFound ==> r == Error(UserIsNotAuthorizedForGivenOperation)
    ensures userFound ==> (r == Ok <==> FirstTarget(trackId, releaseId, artistId).Some?
                                        && rated(FirstTarget(trackId, releaseId, artistId).value))
    ensures userFound && r != Ok ==> r == Error(TheRequestedDataWasNotFound)
  {
    if !userFound then Error(UserIsNotAuthorizedForGivenOperation)
    else
      var target := FirstTarget(trackId, releaseId, artistId);
      if target.Some? && rated(target.value) then Ok else Error(TheRequestedDataWasNotFound)
  }

  /** The first release id among `albumIds` whose star fails, with its error code. */
  function FirstStarFailure(albumIds: seq<Option<int>>, starred: int -> Option<ErrorCode>): (r: Option<ErrorCode>)
    ensures r.None? <==> forall k :: 0 <= k < |albumIds| && albumIds[k].Some? ==> starred(albumIds[k].value).None?
    ensures r.Some? ==>
      exists k :: 0 <= k < |albumIds| && albumIds[k].Some? && r == starred(albumIds[k].value)
        && forall j :: 0 <= j < k && albumIds[j].Some? ==> starred(albumIds[j].value).None?
  {
    if |albumIds| == 0 then None
    else if albumIds[0].Some? && starred(albumIds[0].value).Some? then starred(albumIds[0].value)
    else
      assert forall k :: 1 <= k < |albumIds| ==> albumIds[k] == albumIds[1..][k - 1];
      var r := FirstStarFailure(albumIds[1..], starred);
      if r.Some? then
        var k :| 0 <= k < |albumIds| - 1 && albumIds[1..][k].Some? && r == starred(albumIds[1..][k].value)
                 && forall j :: 0 <= j < k && albumIds[1..][j].Some? ==> starred(albumIds[1..][j].value).None?;
        assert albumIds[k + 1].Some? && r == starred(albumIds[k + 1].value);
        r
      else r
  }

  /**
   * `ToggleStar` with its `albumIds` branch as the code writes it: when every
   * release is starred the loop ends and the routine falls through to not-found.
   */
  function ToggleAlbumStarsAsWritten(albumIds: seq<Option<int>>, starred: int -> Option<ErrorCode>): (r: SubsonicResult)
    ensures r != Ok
  {
    var failure := FirstStarFailure(albumIds, starred);
    if failure.Some? then Error(failure.value) else Error(TheRequestedDataWasNotFound)
  }

  /** The discrepancy: starring one known album succeeds and is reported not-found. */
  lemma AlbumStarReportedNotFound(starred: int -> Option<ErrorCode>)
    requires starred(1) == None
    ensures FirstStarFailure([Some(1)], starred).None?
    ensures ToggleAlbumStarsAsWritten([Some(1)], starred) == Error(TheRequestedDataWasNotFound)
  {
  }

  /**
   * What the `artistIds` branch reads of a star result: whether it is a
   * not-found result and its error code, which a success does not carry.
   */
  datatype StarResult = StarResult(isSuccess: bool, isNotFound: bool, errorCode: Option<ErrorCode>)

  /**
   * `ToggleStar` with its `artistIds` branch as the code writes it: each id is
   * starred as a release (`releaseStar`), and the first result that is not a
   * not-found one is answered with its error code; reading the code of a result
   * that has none throws. When every result is not-found, the answer is not-found.
   */
  function ToggleArtistStarsAsWritten(artistIds: seq<Option<int>>, releaseStar: int -> StarResult): (r: SubsonicResult)
    ensures r != Ok
    ensures (forall k :: 0 <= k < |artistIds| && artistIds[k].Some? ==> releaseStar(artistIds[k].value).isNotFound)
      ==> r == Error(TheRequestedDataWasNotFound)
  {
    if |artistIds| == 0 then Error(TheRequestedDataWasNotFound)
    else if artistIds[0].Some? && !releaseStar(artistIds[0].value).isNotFound then
      var code := releaseStar(artistIds[0].value).errorCode;
      if code.Some? then Error(code.value) else Thrown(InvalidOperation)
    else
      assert forall k :: 1 <= k < |artistIds| ==> artistIds[k] == artistIds[1..][k - 1];
      ToggleArtistStarsAsWritten(artistIds[1..], releaseStar)
  }

  /** The discrepancy: starring one artist successfully throws instead of answering Ok. */
  lemma ArtistStarThrows(releaseStar: int -> StarResult)
    requires releaseStar(1) == StarResult(true, false, None)
    ensures ToggleArtistStarsAsWritten([Some(1)], releaseStar) == Thrown(InvalidOperation)
  {
  }

  /**
   * The star loop of `ToggleStar`: the ids are starred in order and the first
   * failure is answered with its code; when all succeed the answer is Ok.
   */
  method StarInOrder(ids: seq<Option<int>>, starred: int -> Option<ErrorCode>) returns (r: SubsonicResult)
    ensures r == if FirstStarFailure(ids, starred).Some? then Error(FirstStarFailure(ids, starred).value) else Ok
  {
    for i := 0 to |ids|
      invariant FirstStarFailure(ids, starred) == FirstStarFailure(ids[i..], starred)
    {
      assert ids[i..][1..] == ids[i + 1..];
      if ids[i].Some? {
        var failure := starred(ids[i].value);
        if failure.Some? {
          return Error(failure.value);
        }
      }
    }
    return Ok;
  }

  /**
   * `ToggleStar`: an unknown user is refused; the first named target is starred
   * and only success answers Ok. With no target id, the `albumIds` are starred in
   * order, else the `artistIds`: the first failure is answered with its code, and
   * when all succeed the answer is Ok (the code falls through to not-found for
   * albums, see `ToggleAlbumStarsAsWritten`, and stars artists as releases, see
   * `ToggleArtistStarsAsWritten`). `starred(t)` is the error of starring `t`, if
   * any; `albumStarred` and `artistStarred` the same for an id of either list.
   */
  method ToggleStar(userFound: bool, trackId: Option<int>, releaseId: Option<int>, artistId: Option<int>,
                    starred: Target -> Option<ErrorCode>, albumIds: Option<seq<Option<int>>>,
                    albumStarred: int -> Option<ErrorCode>, artistIds: Option<seq<Option<int>>>,
                    artistStarred: int -> Option<ErrorCode>) returns (r: SubsonicResult)
    ensures !userFound ==> r == Error(UserIsNotAuthorizedForGivenOperation)
    ensures userFound && FirstTarget(trackId, releaseId, artistId).Some? ==>
      (r == Ok <==> starred(FirstTarget(trackId, releaseId, artistId).value).None?)
      && (r != Ok ==> r == Error(TheRequestedDataWasNotFound))
    ensures userFound && FirstTarget(trackId, releaseId, artistId).None? ==>
      if albumIds.Some? && |albumIds.value| > 0 then
        r == (if FirstStarFailure(albumIds.value, albumStarred).Some?
              then Error(FirstStarFailure(albumIds.value, albumStarred).value) else Ok)
      else if artistIds.Some? && |artistIds.value| > 0 then
        r == (if FirstStarFailure(artistIds.value, artistStarred).Some?
              then Error(FirstStarFailure(artistIds.value, artistStarred).value) else Ok)
      else r == Error(TheRequestedDataWasNotFound)
  {
    if !userFound {
      return Error(UserIsNotAuthorizedForGivenOperation);
    }
    var target := FirstTarget(trackId, releaseId, artistId);
    if target.Some? {
      if starred(target.value).None? {
        return Ok;
      }
      return Error(TheRequestedDataWasNotFound);
    }
    if albumIds.Some? && |albumIds.value| > 0 {
      r := StarInOrder(albumIds.value, albumStarred);
    } else if artistIds.Some? && |artistIds.value| > 0 {
      r := StarInOrder(artistIds.value, artistStarred);
    } else {
      r := Error(TheRequestedDataWasNotFound);
    }
  }

  // ---------------------------------------------------- indexes and folders

  /** A music folder. */
  datatype MusicFolder = MusicFolder(id: int, name: string)

  /** The two fixed folders. */
  const MusicFolders: seq<MusicFolder> := [MusicFolder(1, "Collections"), MusicFolder(2, "Music")]

  /** `MusicFolders().FirstOrDefault(x => x.id == id)`. */
  function FolderById(id: int): (r: Option<MusicFolder>)
    ensures r.Some? <==> id == 1 || id == 2
    ensures r.Some? ==> r.value in MusicFolders && r.value.id == id
  {
    if id == 1 then Some(MusicFolders[0]) else if id == 2 then Some(MusicFolders[1]) else None
  }

  /**
   * The folder `getArtists` looks up: the requested one, the "Music" folder by
   * default. Whatever it is, the artists are indexed the "Music" way: the
   * "Collections" test compares the folder by reference with a freshly built
   * folder object, which never holds.
   */
  function ArtistsFolder(musicFolderId: Option<int>): (r: Option<MusicFolder>)
    ensures musicFolderId.None? ==> r == Some(MusicFolder(2, "Music"))
    ensures musicFolderId.Some? ==> r == FolderById(musicFolderId.value)
  {
    FolderById(musicFolderId.GetOr(2))
  }

  /** One artist index: a first character and the names under it. */
  datatype Index = Index(key: char, names: seq<string>)

  function FindKey(groups: seq<Index>, key: char): (r: Option<nat>)
    ensures r.Some? ==> r.value < |groups| && groups[r.value].key == key
    ensures r.None? ==> forall k :: 0 <= k < |groups| ==> groups[k].key != key
  {
    if |groups| == 0 then None
    else if groups[|groups| - 1].key == key then Some(|groups| - 1)
    else FindKey(groups[..|groups| - 1], key)
  }

  /** Adding one name: to its character's group if there is one, else to a new group at the end. */
  function AddToIndex(groups: seq<Index>, name: string): (r: seq<Index>)
    requires |name| > 0
  {
    var k := FindKey(groups, name[0]);
    if k.Some? then groups[k.value := groups[k.value].(names := groups[k.value].names + [name])]
    else groups + [Index(name[0], [name])]
  }

  /** `GroupBy(Substring(0, 1))`: groups in order of first appearance, names in order within a group. */
  function GroupByFirstChar(names: seq<string>): seq<Index>
    requires forall k :: 0 <= k < |names| ==> |names[k]| > 0
  {
    if |names| == 0 then []
    else AddToIndex(GroupByFirstChar(names[..|names| - 1]), names[|names| - 1])
  }

  /** The artist indexes; an artist with an empty name makes `Substring(0, 1)` throw. */
  function ArtistIndexes(names: seq<string>): (r: Result<seq<Index>, Exception>)
    ensures r.Failure? <==> exists k :: 0 <= k < |names| && |names[k]| == 0
    ensures r.Failure? ==> r.error == ArgumentOutOfRange
  {
    if exists k :: 0 <= k < |names| && |names[k]| == 0 then Failure(ArgumentOutOfRange)
    else Success(GroupByFirstChar(names))
  }

  ghost predicate WellGrouped(groups: seq<Index>) {
    (forall i, j :: 0 <= i < j < |groups| ==> groups[i].key != groups[j].key)
    && (forall i :: 0 <= i < |groups| ==>
          |groups[i].names| > 0
          && forall n :: n in groups[i].names ==> |n| > 0 && n[0] == groups[i].key)
  }

  /** `n` is listed under some group. */
  ghost predicate InIndex(groups: seq<Index>, n: string) {
    exists i :: 0 <= i < |groups| && n in groups[i].names
  }

  /** Adding a name keeps the grouping well formed: one group per character, each name under its own. */
  lemma AddToIndexWellGrouped(gs: seq<Index>, name: string)
    requires |name| > 0 && WellGrouped(gs)
    ensures WellGrouped(AddToIndex(gs, name))
  {
    var r := AddToIndex(gs, name);
    var k := FindKey(gs, name[0]);
    if k.Some? {
      forall i | 0 <= i < |r|
        ensures r[i].key == gs[i].key
        ensures forall n :: n in r[i].names ==> n in gs[i].names || (i == k.value && n == name)
      {
      }
    } else {
      assert r == gs + [Index(name[0], [name])];
    }
  }

  /** Adding a name lists exactly one more name. */
  lemma AddToIndexListed(gs: seq<Index>, name: string)
    requires |name| > 0
    ensures forall n :: InIndex(AddToIndex(gs, name), n) <==> InIndex(gs, n) || n == name
  {
    var r := AddToIndex(gs, name);
    var k := FindKey(gs, name[0]);
    if k.Some? {
      assert name in r[k.value].names;
      forall n | InIndex(gs, n)
        ensures InIndex(r, n)
      {
        var i :| 0 <= i < |gs| && n in gs[i].names;
        assert n in r[i].names;
      }
      forall n | InIndex(r, n)
        ensures InIndex(gs, n) || n == name
      {
        var i :| 0 <= i < |r| && n in r[i].names;
        if i == k.value && n !in gs[i].names {
          assert n == name;
        } else {
          assert n in gs[i].names;
        }
      }
    } else {
      assert name in r[|gs|].names;
      forall n | InIndex(gs, n)
        ensures InIndex(r, n)
      {
        var i :| 0 <= i < |gs| && n in gs[i].names;
        assert r[i] == gs[i];
      }
      forall n | InIndex(r, n)
        ensures InIndex(gs, n) || n == name
      {
        var i :| 0 <= i < |r| && n in r[i].names;
        if i < |gs| {
          assert r[i] == gs[i];
        }
      }
    }
  }

  /**
   * The grouping has one group per first character, every name sits in its
   * character's group, and the groups hold exactly the given names.
   */
  lemma {:induction false} GroupByFirstCharSpec(names: seq<string>)
    requires forall k :: 0 <= k < |names| ==> |names[k]| > 0
    ensures WellGrouped(GroupByFirstChar(names))
    ensures forall n :: n in names <==> InIndex(GroupByFirstChar(names), n)
  {
    if |names| > 0 {
      var init := names[..|names| - 1];
      var name := names[|names| - 1];
      GroupByFirstCharSpec(init);
      AddToIndexWellGrouped(GroupByFirstChar(init), name);
      AddToIndexListed(GroupByFirstChar(init), name);
      assert forall n :: n in names <==> n in init || n == name;
    }
  }

  /** The distinct first characters of the (non-empty) names, in order of first appearance. */
  function FirstChars(names: seq<string>): seq<char> {
    if |names| == 0 then []
    else
      var init := FirstChars(names[..|names| - 1]);
      var last := names[|names| - 1];
      if |last| == 0 || last[0] in init then init else init + [last[0]]
  }

  /** The names starting with `c`, in input order, repeats included. */
  function NamesStartingWith(names: seq<string>, c: char): seq<string> {
    if |names| == 0 then []
    else
      var last := names[|names| - 1];
      NamesStartingWith(names[..|names| - 1], c) + (if |last| > 0 && last[0] == c then [last] else [])
  }

  /** The groups are those of `GroupBy` over `names`, as `GroupByFirstCharOrder` states. */
  ghost predicate GroupsInOrder(gs: seq<Index>, names: seq<string>) {
    |gs| == |FirstChars(names)|
    && (forall i :: 0 <= i < |gs| ==>
          gs[i].key == FirstChars(names)[i] && gs[i].names == NamesStartingWith(names, gs[i].key))
    && (forall c :: c !in FirstChars(names) ==> NamesStartingWith(names, c) == [])
  }

  /**
   * `GroupBy` order: the groups follow the first appearance of their character,
   * and each group lists, in input order and with repeats, exactly the names
   * that start with its character.
   */
  lemma {:induction false} GroupByFirstCharOrder(names: seq<string>)
    requires forall k :: 0 <= k < |names| ==> |names[k]| > 0
    ensures GroupsInOrder(GroupByFirstChar(names), names)
  {
    if |names| > 0 {
      var init := names[..|names| - 1];
      var name := names[|names| - 1];
      assert names == init + [name];
      GroupByFirstCharOrder(init);
      GroupByFirstCharSpec(init);
      AddToIndexInOrder(GroupByFirstChar(init), init, name);
    }
  }

  /** The induction step of `GroupByFirstCharOrder`: one more name at the end. */
  lemma AddToIndexInOrder(gs: seq<Index>, init: seq<string>, name: string)
    requires |name| > 0
    requires GroupsInOrder(gs, init) && WellGrouped(gs)
    ensures GroupsInOrder(AddToIndex(gs, name), init + [name])
  {
    var k := FindKey(gs, name[0]);
    if k.Some? {
      AddKnownCharInOrder(gs, init, name, k.value);
    } else {
      AddNewCharInOrder(gs, init, name);
    }
  }

  /** A name whose character already has a group joins the end of that group. */
  lemma AddKnownCharInOrder(gs: seq<Index>, init: seq<string>, name: string, k: nat)
    requires |name| > 0
    requires GroupsInOrder(gs, init) && WellGrouped(gs) && FindKey(gs, name[0]) == Some(k)
    ensures GroupsInOrder(AddToIndex(gs, name), init + [name])
  {
    var names := init + [name];
    assert names[..|names| - 1] == init && names[|names| - 1] == name;
    var c, ks := name[0], FirstChars(init);
    var r := gs[k := gs[k].(names := gs[k].names + [name])];
    assert AddToIndex(gs, name) == r;
    assert ks[k] == c;
    assert FirstChars(names) == ks;
    forall i | 0 <= i < |r|
      ensures r[i].key == ks[i] && r[i].names == NamesStartingWith(names, r[i].key)
    {
      if i != k {
        assert gs[i].key != gs[k].key;
        assert NamesStartingWith(names, ks[i]) == NamesStartingWith(init, ks[i]) + [];
      }
    }
    forall d | d !in ks
      ensures NamesStartingWith(names, d) == []
    {
      assert d != c;
      assert NamesStartingWith(names, d) == NamesStartingWith(init, d) + [];
    }
  }

  /** A name with a new character opens a group of its own at the end. */
  lemma AddNewCharInOrder(gs: seq<Index>, init: seq<string>, name: string)
    requires |name| > 0
    requires GroupsInOrder(gs, init) && FindKey(gs, name[0]).None?
    ensures GroupsInOrder(AddToIndex(gs, name), init + [name])
  {
    var names := init + [name];
    assert names[..|names| - 1] == init && names[|names| - 1] == name;
    var c, ks := name[0], FirstChars(init);
    var r := gs + [Index(c, [name])];
    assert AddToIndex(gs, name) == r;
    assert forall i :: 0 <= i < |gs| ==> gs[i].key != c;
    assert c !in ks;
    var ks' := ks + [c];
    assert FirstChars(names) == ks';
    assert NamesStartingWith(names, c) == [] + [name];
    forall i | 0 <= i < |gs|
      ensures r[i].key == ks'[i] && r[i].names == NamesStartingWith(names, r[i].key)
    {
      assert r[i] == gs[i] && gs[i].key != c;
      assert NamesStartingWith(names, ks[i]) == NamesStartingWith(init, ks[i]) + [];
    }
    forall d | d !in ks'
      ensures NamesStartingWith(names, d) == []
    {
      assert NamesStartingWith(names, d) == NamesStartingWith(init, d) + [];
    }
  }
}
