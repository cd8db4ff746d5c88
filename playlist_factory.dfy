/**
 * The playlist factory: adding tracks to a playlist without duplicates and
 * renumbering a playlist's rows 1..n in creation order. The database tables
 * become sequences held by a `Store` object; dates are tick counts.
 */
module PlaylistFactory {
  import opened Wrappers
  import Sorting

  /** A track of the library: its key and its public id. */
  datatype Track = Track(id: int, roadieId: int)

  /** One row of the playlist-track table. */
  datatype PlaylistTrackRow = PlaylistTrackRow(trackId: int, playlistId: int, listNumber: int,
                                               createdDate: int, lastUpdated: Option<int>)

  /** A playlist entity; only its key and last-updated stamp matter here. */
  class Playlist {
    const id: int
    var lastUpdated: Option<int>

    constructor (id: int)
      ensures this.id == id && lastUpdated.None?
    {
      this.id := id;
      lastUpdated := None;
    }
  }

  /** The two tables the factory reads and writes. */
  class Store {
    var tracks: seq<Track>
    var rows: seq<PlaylistTrackRow>

    constructor (tracks: seq<Track>, rows: seq<PlaylistTrackRow>)
      ensures this.tracks == tracks && this.rows == rows
    {
      this.tracks := tracks;
      this.rows := rows;
    }

    /** Keys of the track table are unique, and so are the public ids. */
    ghost predicate UniqueTrackKeys()
      reads this
    {
      DistinctIds(tracks)
      && (forall i, j :: 0 <= i < j < |tracks| ==> tracks[i].roadieId != tracks[j].roadieId)
    }
  }

  ghost predicate NoDuplicates(s: seq<nat>) {
    forall i, j :: 0 <= i < j < |s| ==> s[i] != s[j]
  }

  /** Indices, in table order, of the rows at or after `from` belonging to `playlistId`. */
  function RowsOf(rows: seq<PlaylistTrackRow>, playlistId: int, from: nat): (r: seq<nat>)
    requires from <= |rows|
    ensures forall k :: 0 <= k < |r| ==> from <= r[k] < |rows| && rows[r[k]].playlistId == playlistId
    ensures forall i :: from <= i < |rows| && rows[i].playlistId == playlistId ==> i in r
    ensures forall k, m :: 0 <= k < m < |r| ==> r[k] < r[m]
    decreases |rows| - from
  {
    if from == |rows| then []
    else if rows[from].playlistId == playlistId then [from] + RowsOf(rows, playlistId, from + 1)
    else RowsOf(rows, playlistId, from + 1)
  }

  /** The creation date of the row at an index, as a sort key. */
  function CreatedKey(rows: seq<PlaylistTrackRow>): nat -> int {
    (i: nat) => if i < |rows| then rows[i].createdDate else 0
  }

  /**
   * `PlaylistTracks.Where(PlayListId == id).OrderBy(CreatedDate)`, as row indices:
   * the order in which the rows of a playlist are numbered.
   */
  function NumberingOrder(rows: seq<PlaylistTrackRow>, playlistId: int): (r: seq<nat>)
    ensures forall k :: 0 <= k < |r| ==> r[k] < |rows|
  {
    var ids := RowsOf(rows, playlistId, 0);
    var r := Sorting.SortBy(ids, CreatedKey(rows));
    Sorting.SortByPermutation(ids, CreatedKey(rows));
    assert forall k :: 0 <= k < |r| ==> r[k] in multiset(ids);
    r
  }

  /** The numbering order visits exactly the rows of the playlist. */
  lemma NumberingOrderMembers(rows: seq<PlaylistTrackRow>, playlistId: int)
    ensures var order := NumberingOrder(rows, playlistId);
      (forall k :: 0 <= k < |order| ==> rows[order[k]].playlistId == playlistId)
      && (forall i :: 0 <= i < |rows| && rows[i].playlistId == playlistId ==> i in order)
  {
    var ids := RowsOf(rows, playlistId, 0);
    var order := NumberingOrder(rows, playlistId);
    Sorting.SortByPermutation(ids, CreatedKey(rows));
    forall k | 0 <= k < |order|
      ensures rows[order[k]].playlistId == playlistId
    {
      assert order[k] in multiset(ids);
    }
    forall i | 0 <= i < |rows| && rows[i].playlistId == playlistId
      ensures i in order
    {
      assert i in multiset(order);
    }
  }

  /** The numbering order visits each row at most once. */
  lemma NumberingOrderNoDuplicates(rows: seq<PlaylistTrackRow>, playlistId: int)
    ensures NoDuplicates(NumberingOrder(rows, playlistId))
  {
    var ids := RowsOf(rows, playlistId, 0);
    var order: seq<nat> := NumberingOrder(rows, playlistId);
    Sorting.SortByPermutation(ids, CreatedKey(rows));
    var counts: multiset<nat> := multiset(order);
    forall x: nat
      ensures counts[x] <= 1
    {
      StrictlyIncreasingCounts(ids, x);
    }
    AtMostOnceNoDuplicates(order);
  }

  /** A sequence in which every value occurs at most once has no duplicates. */
  lemma AtMostOnceNoDuplicates(s: seq<nat>)
    requires forall x: nat :: multiset(s)[x] <= 1
    ensures NoDuplicates(s)
  {
    forall k, m | 0 <= k < m < |s|
      ensures s[k] != s[m]
    {
      if s[k] == s[m] {
        TwiceCounted(s, k, m);
        assert false;
      }
    }
  }

  /** A value found at two positions occurs at least twice. */
  lemma TwiceCounted(s: seq<nat>, k: nat, m: nat)
    requires k < m < |s| && s[k] == s[m]
    ensures multiset(s)[s[k]] >= 2
  {
    var x := s[k];
    assert s == s[..k] + [x] + s[k + 1..m] + [x] + s[m + 1..];
  }

  /** The numbering order follows creation dates. */
  lemma NumberingOrderSorted(rows: seq<PlaylistTrackRow>, playlistId: int)
    ensures var order := NumberingOrder(rows, playlistId);
      forall k, m :: 0 <= k < m < |order| ==> rows[order[k]].createdDate <= rows[order[m]].createdDate
  {
    var ids := RowsOf(rows, playlistId, 0);
    var order := NumberingOrder(rows, playlistId);
    Sorting.SortBySorted(ids, CreatedKey(rows));
    forall k, m | 0 <= k < m < |order|
      ensures rows[order[k]].createdDate <= rows[order[m]].createdDate
    {
      assert CreatedKey(rows)(order[k]) <= CreatedKey(rows)(order[m]);
    }
  }

  /** In a strictly increasing sequence every element occurs at most once. */
  lemma {:induction false} StrictlyIncreasingCounts(s: seq<nat>, x: nat)
    requires forall k, m :: 0 <= k < m < |s| ==> s[k] < s[m]
    ensures multiset(s)[x] <= 1
  {
    if |s| > 0 {
      StrictlyIncreasingCounts(s[1..], x);
      assert s == [s[0]] + s[1..];
      if s[0] == x {
        assert x !in s[1..];
      }
    }
  }

  /** Two versions of a row that agree on track, playlist and creation date. */
  predicate SameKeys(a: PlaylistTrackRow, b: PlaylistTrackRow) {
    a.trackId == b.trackId && a.playlistId == b.playlistId && a.createdDate == b.createdDate
  }

  /** What renumbering does to one row: its list number and its last-updated stamp. */
  function Renumbered(row: PlaylistTrackRow, n: int, now: int): PlaylistTrackRow {
    row.(listNumber := n, lastUpdated := Some(now))
  }

  /**
   * `ReorderPlaylist`: a null playlist reports failure and changes nothing.
   * Otherwise the playlist's rows, in creation-date order, get list numbers
   * 1..n and the stamp `now`; every other row is left alone.
   */
  method ReorderPlaylist(store: Store, playlist: Playlist?, now: int) returns (isSuccess: bool, data: bool)
    modifies store
    ensures isSuccess == data && (data <==> playlist != null)
    ensures store.tracks == old(store.tracks) && |store.rows| == |old(store.rows)|
    ensures playlist == null ==> store.rows == old(store.rows)
    ensures forall i :: 0 <= i < |store.rows| ==> SameKeys(store.rows[i], old(store.rows)[i])
    ensures playlist != null ==>
      var order := NumberingOrder(old(store.rows), playlist.id);
      (forall k :: 0 <= k < |order| ==> store.rows[order[k]] == Renumbered(old(store.rows)[order[k]], k + 1, now))
      && (forall i :: 0 <= i < |store.rows| && old(store.rows)[i].playlistId != playlist.id ==>
            store.rows[i] == old(store.rows)[i])
  {
    if playlist == null {
      return false, false;
    }
    var order := NumberingOrder(store.rows, playlist.id);
    NumberingOrderNoDuplicates(store.rows, playlist.id);
    NumberingOrderMembers(store.rows, playlist.id);
    store.rows := RenumberRows(store.rows, order, now);
    return true, true;
  }

  /** The renumbering loop: the rows at `order`, in turn, get list numbers 1, 2, ... and the stamp `now`. */
  method RenumberRows(rows0: seq<PlaylistTrackRow>, order: seq<nat>, now: int) returns (rows: seq<PlaylistTrackRow>)
    requires forall k :: 0 <= k < |order| ==> order[k] < |rows0|
    requires NoDuplicates(order)
    ensures |rows| == |rows0|
    ensures forall i :: 0 <= i < |rows0| ==> SameKeys(rows[i], rows0[i])
    ensures forall j :: 0 <= j < |order| ==> rows[order[j]] == Renumbered(rows0[order[j]], j + 1, now)
    ensures forall i :: 0 <= i < |rows0| && i !in order ==> rows[i] == rows0[i]
  {
    rows := rows0;
    var looper := 0;
    for k := 0 to |order|
      invariant looper == k && |rows| == |rows0|
      invariant forall i :: 0 <= i < |rows0| ==> SameKeys(rows[i], rows0[i])
      invariant forall j :: 0 <= j < k ==> rows[order[j]] == Renumbered(rows0[order[j]], j + 1, now)
      invariant forall i :: 0 <= i < |rows0| && i !in order[..k] ==> rows[i] == rows0[i]
    {
      looper := looper + 1;
      var i := order[k];
      assert i !in order[..k];
      assert order[..k + 1] == order[..k] + [i];
      rows := rows[i := Renumbered(rows[i], looper, now)];
    }
    assert order[..|order|] == order;
  }

  /** The public ids of the tracks already on the playlist (the join of rows and tracks). */
  function ExistingRoadieIds(tracks: seq<Track>, rows: seq<PlaylistTrackRow>, playlistId: int): (r: set<int>)
    ensures forall t, row ::
      (t in tracks && row in rows && row.playlistId == playlistId && row.trackId == t.id) ==> t.roadieId in r
    ensures forall x :: x in r ==>
      exists t, row :: t in tracks && row in rows && row.playlistId == playlistId && row.trackId == t.id && t.roadieId == x
  {
    set t, row | t in tracks && row in rows && row.playlistId == playlistId && row.trackId == t.id :: t.roadieId
  }

  /** The tracks to add, in table order: requested by public id and not on the playlist yet. */
  function NewTracks(tracks: seq<Track>, trackIds: set<int>, existing: set<int>): (r: seq<Track>)
    ensures forall t :: t in r <==> t in tracks && t.roadieId in trackIds && t.roadieId !in existing
    ensures |r| <= |tracks|
  {
    if |tracks| == 0 then []
    else
      var rest := NewTracks(tracks[1..], trackIds, existing);
      assert forall t :: t in tracks <==> t == tracks[0] || t in tracks[1..];
      if tracks[0].roadieId in trackIds && tracks[0].roadieId !in existing then [tracks[0]] + rest else rest
  }

  /** New rows carry no list number until the reorder assigns one. */
  function NewRow(t: Track, playlistId: int, now: int): PlaylistTrackRow {
    PlaylistTrackRow(t.id, playlistId, 0, now, None)
  }

  /**
   * `AddTracksToPlaylist`: appends a row (created `now`) for every requested track
   * not already on the playlist, stamps the playlist, then renumbers it; the
   * reorder reads the clock again, as `reorderNow`. `Data` is true exactly when
   * the reorder succeeded, which it always does here; the result never sets
   * `IsSuccess`, so that flag stays false.
   */
  method AddTracksToPlaylist(store: Store, playlist: Playlist, trackIds: set<int>, now: int, reorderNow: int)
    returns (isSuccess: bool, data: bool)
    modifies store, playlist
    ensures data && !isSuccess
    ensures playlist.lastUpdated == Some(now)
    ensures store.tracks == old(store.tracks)
    ensures var added := NewTracks(old(store.tracks), trackIds,
                                   ExistingRoadieIds(old(store.tracks), old(store.rows), playlist.id));
      |store.rows| == |old(store.rows)| + |added|
      && (forall k :: 0 <= k < |added| ==>
            store.rows[|old(store.rows)| + k].trackId == added[k].id
            && store.rows[|old(store.rows)| + k].playlistId == playlist.id
            && store.rows[|old(store.rows)| + k].createdDate == now)
      && (forall i :: 0 <= i < |old(store.rows)| ==> SameKeys(store.rows[i], old(store.rows)[i]))
    ensures var added := NewTracks(old(store.tracks), trackIds,
                                   ExistingRoadieIds(old(store.tracks), old(store.rows), playlist.id));
      var order := NumberingOrder(old(store.rows) + NewRows(added, playlist.id, now), playlist.id);
      |store.rows| == |old(store.rows)| + |added|
      && (forall k :: 0 <= k < |order| ==>
            store.rows[order[k]] == Renumbered((old(store.rows) + NewRows(added, playlist.id, now))[order[k]], k + 1, reorderNow))
      && (forall i :: 0 <= i < |old(store.rows)| && old(store.rows)[i].playlistId != playlist.id ==>
            store.rows[i] == old(store.rows)[i])
  {
    var existing := ExistingRoadieIds(store.tracks, store.rows, playlist.id);
    var added := NewTracks(store.tracks, trackIds, existing);
    store.rows := AppendRows(store.rows, added, playlist.id, now);
    playlist.lastUpdated := Some(now);
    var reordered, r := ReorderPlaylist(store, playlist, reorderNow);
    data := true && reordered;
    isSuccess := false;
  }

  /** The insert loop: one new row per track, appended in order. */
  method AppendRows(rows0: seq<PlaylistTrackRow>, added: seq<Track>, playlistId: int, now: int)
    returns (rows: seq<PlaylistTrackRow>)
    ensures rows == rows0 + NewRows(added, playlistId, now)
  {
    rows := rows0;
    for k := 0 to |added|
      invariant rows == rows0 + NewRows(added[..k], playlistId, now)
    {
      assert added[..k + 1] == added[..k] + [added[k]];
      NewRowsSnoc(added[..k], added[k], playlistId, now);
      rows := rows + [NewRow(added[k], playlistId, now)];
    }
    assert added[..|added|] == added;
  }

  /** The rows added for the given tracks, in order. */
  function NewRows(added: seq<Track>, playlistId: int, now: int): (r: seq<PlaylistTrackRow>)
    ensures |r| == |added| && forall k :: 0 <= k < |added| ==> r[k] == NewRow(added[k], playlistId, now)
  {
    if |added| == 0 then [] else [NewRow(added[0], playlistId, now)] + NewRows(added[1..], playlistId, now)
  }

  lemma NewRowsSnoc(added: seq<Track>, t: Track, playlistId: int, now: int)
    ensures NewRows(added + [t], playlistId, now) == NewRows(added, playlistId, now) + [NewRow(t, playlistId, now)]
  {
  }

  /**
   * Under unique track keys, no added track is one already on the playlist, and no
   * track is added twice.
   */
  lemma AddedTracksAreNew(store: Store, trackIds: set<int>, playlistId: int)
    requires store.UniqueTrackKeys()
    ensures var added := NewTracks(store.tracks, trackIds, ExistingRoadieIds(store.tracks, store.rows, playlistId));
      (forall t, row :: t in added && row in store.rows && row.playlistId == playlistId ==> row.trackId != t.id)
      && DistinctIds(added)
  {
    NewTracksDistinct(store.tracks, trackIds, ExistingRoadieIds(store.tracks, store.rows, playlistId));
  }

  ghost predicate DistinctIds(ts: seq<Track>) {
    forall k, m :: 0 <= k < m < |ts| ==> ts[k].id != ts[m].id
  }

  /** Selecting from a table with unique keys yields unique keys. */
  lemma {:induction false} NewTracksDistinct(tracks: seq<Track>, trackIds: set<int>, existing: set<int>)
    requires DistinctIds(tracks)
    ensures DistinctIds(NewTracks(tracks, trackIds, existing))
  {
    if |tracks| > 0 {
      NewTracksDistinct(tracks[1..], trackIds, existing);
      var rest := NewTracks(tracks[1..], trackIds, existing);
      forall k | 0 <= k < |rest|
        ensures rest[k].id != tracks[0].id
      {
        assert rest[k] in tracks[1..];
        var j :| 0 <= j < |tracks[1..]| && tracks[1..][j] == rest[k];
        assert tracks[j + 1] == rest[k];
      }
      if tracks[0].roadieId in trackIds && tracks[0].roadieId !in existing {
        var r := NewTracks(tracks, trackIds, existing);
        assert r == [tracks[0]] + rest;
        forall k, m | 0 <= k < m < |r|
          ensures r[k].id != r[m].id
        {
          assert r[m] == rest[m - 1];
          if k > 0 {
            assert r[k] == rest[k - 1];
            assert rest[k - 1].id != rest[m - 1].id;
          } else {
            assert r[0] == tracks[0];
            assert rest[m - 1].id != tracks[0].id;
          }
        }
      }
    }
  }
}
