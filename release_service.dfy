/**
 * The release service: how a list request is normalised (genre prefix, year
 * range, quoted exact filter, random-mode limit), which releases the list
 * keeps, its page count, and how an update edits a release and reconciles its
 * genres with the edited model.
 */
module ReleaseService {
  import opened Wrappers
  import opened Numeric
  import Text
  import Paging
  import ListExt

  // ------------------------------------------------------ list normalisation

  /** The genre filter is on when a genre is named or the filter starts with ":genre" (any case). */
  predicate GenreFilterApplies(filterByGenre: Option<string>, filter: Option<string>) {
    !Paging.IsNullOrEmpty(filterByGenre)
    || (!Paging.IsNullOrEmpty(filter) && Text.StartsWithIgnoreCase(filter.value, ":genre"))
  }

  /** The genre searched for: the named genre, else the filter with every ":genre " (any case) cut out. */
  function GenreTerm(filterByGenre: Option<string>, filter: Option<string>): string {
    if filterByGenre.Some? then filterByGenre.value else Text.ReplaceIgnoreCase(filter.GetOr(""), ":genre ", "")
  }

  /** Starts and ends with a double quote; a lone `"` counts, as it does for `StartsWith`/`EndsWith`. */
  predicate IsQuoted(s: string) {
    |s| > 0 && s[0] == '"' && s[|s| - 1] == '"'
  }

  /** What normalisation hands on to the row filter besides the request itself. */
  datatype ListFilter = ListFilter(genre: Option<string>, exact: bool)

  /** `Substring(1, Length - 2)` on a one-character filter throws. */
  datatype ListFault = SubstringOutOfRange

  /**
   * The request edits `List` makes before and after it filters rows, in order:
   * the genre filter consumes `Filter`; a year range with To > From is swapped and
   * sorted DESC, any other range sorted ASC; a quoted filter is unquoted and turns
   * on exact matching; random mode caps `Limit`.
   */
  method NormalizeListRequest(request: Paging.PagedRequest, doRandomize: bool, userRandomLimit: Option<Int16>)
    returns (r: Result<ListFilter, ListFault>)
    modifies request
    ensures request.action == old(request.action) && request.page == old(request.page)
    ensures request.sort == old(request.sort) && request.skipMemo == old(request.skipMemo)
    ensures request.filterByGenre == old(request.filterByGenre)
    // genre
    ensures r.Success? ==>
      (r.value.genre.Some? <==> GenreFilterApplies(old(request.filterByGenre), old(request.filter)))
    ensures r.Success? && r.value.genre.Some? ==>
      r.value.genre.value == GenreTerm(old(request.filterByGenre), old(request.filter))
    // years
    ensures var from, to := old(request.filterFromYear), old(request.filterToYear);
      (from.None? && to.None? ==>
         request.filterFromYear.None? && request.filterToYear.None? && request.order == old(request.order))
      && (from.Some? && to.Some? && to.value > from.value ==>
            request.filterFromYear == to && request.filterToYear == from && request.order == Some("DESC"))
      && ((from.Some? || to.Some?) && !(from.Some? && to.Some? && to.value > from.value) ==>
            request.filterFromYear == from && request.filterToYear == to && request.order == Some("ASC"))
    ensures request.filterFromYear.Some? && request.filterToYear.Some? ==>
      request.filterToYear.value <= request.filterFromYear.value
    // quoted filter
    ensures var fv := if GenreFilterApplies(old(request.filterByGenre), old(request.filter)) then ""
                      else old(request.FilterValue());
      (r.Failure? <==> fv == "\"")
      && (r.Success? ==> (r.value.exact <==> IsQuoted(fv)))
      && (r.Success? && IsQuoted(fv) ==> request.filter == Some(fv[1..|fv| - 1]))
      && (!IsQuoted(fv) ==>
            request.filter == (if GenreFilterApplies(old(request.filterByGenre), old(request.filter)) then None
                               else old(request.filter)))
    // random cap
    ensures r.Success? && doRandomize ==>
      request.limit == Some(Paging.RandomLimit(old(request.LimitValue()), userRandomLimit))
    ensures !(r.Success? && doRandomize) ==> request.limit == old(request.limit)
  {
    var genre := ConsumeGenreFilter(request);
    ghost var fv := request.FilterValue();
    assert fv == if genre.Some? then "" else old(request.FilterValue());
    OrderByYears(request);
    var exact := UnquoteFilter(request);
    if exact.Failure? {
      return Failure(exact.error);
    }
    if doRandomize {
      request.limit := Some(Paging.RandomLimit(request.LimitValue(), userRandomLimit));
    }
    r := Success(ListFilter(genre, exact.value));
  }

  /** The genre filter: when it applies, its term is taken and `Filter` is cleared. */
  method ConsumeGenreFilter(request: Paging.PagedRequest) returns (genre: Option<string>)
    modifies request`filter
    ensures genre.Some? <==> GenreFilterApplies(request.filterByGenre, old(request.filter))
    ensures genre.Some? ==> genre.value == GenreTerm(request.filterByGenre, old(request.filter))
    ensures request.filter == if genre.Some? then None else old(request.filter)
  {
    genre := None;
    if GenreFilterApplies(request.filterByGenre, request.filter) {
      genre := Some(GenreTerm(request.filterByGenre, request.filter));
      request.filter := None;
    }
  }

  /** A year range with To > From is swapped and sorted DESC, any other range sorted ASC. */
  method OrderByYears(request: Paging.PagedRequest)
    modifies request`filterFromYear, request`filterToYear, request`order
    ensures var from, to := old(request.filterFromYear), old(request.filterToYear);
      (from.None? && to.None? ==>
         request.filterFromYear.None? && request.filterToYear.None? && request.order == old(request.order))
      && (from.Some? && to.Some? && to.value > from.value ==>
            request.filterFromYear == to && request.filterToYear == from && request.order == Some("DESC"))
      && ((from.Some? || to.Some?) && !(from.Some? && to.Some? && to.value > from.value) ==>
            request.filterFromYear == from && request.filterToYear == to && request.order == Some("ASC"))
    ensures request.filterFromYear.Some? && request.filterToYear.Some? ==>
      request.filterToYear.value <= request.filterFromYear.value
  {
    if request.filterFromYear.Some? || request.filterToYear.Some? {
      if request.filterFromYear.Some? && request.filterToYear.Some?
         && request.filterToYear.value > request.filterFromYear.value {
        var t := request.filterToYear;
        request.filterToYear := request.filterFromYear;
        request.filterFromYear := t;
        request.order := Some("DESC");
      } else {
        request.order := Some("ASC");
      }
    }
  }

  /**
   * A quoted filter is unquoted and turns on exact matching; a lone `"` is quoted
   * but too short for `Substring(1, Length - 2)`.
   */
  method UnquoteFilter(request: Paging.PagedRequest) returns (exact: Result<bool, ListFault>)
    modifies request`filter
    ensures var fv := old(request.FilterValue());
      (exact.Failure? <==> fv == "\"")
      && (exact.Success? ==> (exact.value <==> IsQuoted(fv)))
      && (exact.Success? && IsQuoted(fv) ==> request.filter == Some(fv[1..|fv| - 1]))
      && (!IsQuoted(fv) ==> request.filter == old(request.filter))
  {
    exact := Success(false);
    if request.FilterValue() != "" {
      var filter := request.FilterValue();
      if IsQuoted(filter) {
        if |filter| < 2 {
          return Failure(SubstringOutOfRange);
        }
        exact := Success(true);
        request.filter := Some(filter[1..|filter| - 1]);
      }
    }
  }

  // ------------------------------------------------------------- row filter

  /** The columns of a release the list filters on. */
  datatype ReleaseRow = ReleaseRow(title: string, alternateNames: Option<string>, releaseYear: Option<int>,
                                   genreNames: seq<string>)

  /** Some genre name of the release contains the term. */
  predicate InGenre(row: ReleaseRow, term: string) {
    exists k :: 0 <= k < |row.genreNames| && Text.Contains(row.genreNames[k], term)
  }

  /**
   * The row conditions of `List` on a normalised request: genre, year bounds
   * (From is the upper, To the lower bound), the text filter on title and
   * alternate names, and in exact mode equality instead of containment.
   * `normalized` is the filter's alphanumeric form.
   */
  predicate KeepRelease(row: ReleaseRow, request: Paging.PagedRequest, f: ListFilter, normalized: string)
    reads request
  {
    var fv := request.FilterValue();
    (f.genre.None? || InGenre(row, f.genre.value))
    && (request.filterFromYear.None? || (row.releaseYear.Some? && row.releaseYear.value <= request.filterFromYear.value))
    && (request.filterToYear.None? || (row.releaseYear.Some? && row.releaseYear.value >= request.filterToYear.value))
    && (fv == "" || Text.Contains(row.title, fv)
        || (row.alternateNames.Some? && Text.Contains(row.alternateNames.value, fv))
        || (row.alternateNames.Some? && Text.Contains(row.alternateNames.value, normalized)))
    && (!f.exact || row.title == fv || row.alternateNames == Some(fv) || row.alternateNames == Some(normalized))
  }

  /** A kept release with both year bounds set lies between them, whichever order they were given in. */
  lemma KeptYearsBetweenBounds(row: ReleaseRow, request: Paging.PagedRequest, f: ListFilter, normalized: string)
    requires KeepRelease(row, request, f, normalized)
    requires request.filterFromYear.Some? && request.filterToYear.Some?
    ensures row.releaseYear.Some?
    ensures request.filterToYear.value <= row.releaseYear.value <= request.filterFromYear.value
  {
  }

  /** In exact mode a title that merely contains the filter is not kept. */
  lemma ExactFilterExcludesLongerTitle(request: Paging.PagedRequest, normalized: string)
    requires request.filter == Some("Diana Ross") && request.filterFromYear.None? && request.filterToYear.None?
    requires normalized != "Diana Ross & The Supremes"
    ensures Text.Contains("Diana Ross & The Supremes", "Diana Ross")
    ensures !KeepRelease(ReleaseRow("Diana Ross & The Supremes", None, None, []), request,
                         ListFilter(None, true), normalized)
    ensures KeepRelease(ReleaseRow("Diana Ross & The Supremes", None, None, []), request,
                        ListFilter(None, false), normalized)
  {
    assert Text.StartsWith("Diana Ross & The Supremes", "Diana Ross") by {
      assert "Diana Ross & The Supremes"[..|"Diana Ross"|] == "Diana Ross";
    }
  }

  /** The list's page count: `ceil(rowCount / LimitValue)`. */
  function ListTotalPages(rowCount: nat, request: Paging.PagedRequest): (r: Option<int>)
    reads request
    ensures request.LimitValue() > 0 ==>
      r.Some? && (r.value - 1) * request.LimitValue() < rowCount <= r.value * request.LimitValue()
  {
    Paging.TotalPages(rowCount, request.LimitValue())
  }

  // ----------------------------------------------------------------- update

  /** A genre of the genre table. */
  datatype Genre = Genre(id: int, roadieId: int, name: string)
  /** A release's link to one genre, keyed by the genre's public id. */
  datatype ReleaseGenre = ReleaseGenre(genreId: int, genreRoadieId: int)
  /** An artist of the artist table: key and public id. */
  datatype ArtistKey = ArtistKey(id: int, roadieId: int)

  /** The editable fields of the release model the update reads. */
  datatype ReleaseModel = ReleaseModel(id: int, title: Option<string>, alternateNames: Option<seq<string>>,
                                       tags: Option<seq<string>>, urls: Option<seq<string>>, rating: Int16,
                                       artist: Option<int>, genres: Option<seq<int>>)

  /** The release entity. */
  class Release {
    const id: int
    var title: Option<string>
    var alternateNames: Option<string>
    var tags: Option<string>
    var urls: Option<string>
    var rating: Int16
    var artistId: int
    var genres: seq<ReleaseGenre>
    var lastUpdated: Option<int>

    constructor (id: int, artistId: int, genres: seq<ReleaseGenre>)
      ensures this.id == id && this.artistId == artistId && this.genres == genres
      ensures title.None? && alternateNames.None? && tags.None? && urls.None? && lastUpdated.None?
    {
      this.id := id;
      this.artistId := artistId;
      this.genres := genres;
      title, alternateNames, tags, urls, rating, lastUpdated := None, None, None, None, 0, None;
    }
  }

  /**
   * Where an exception from the parts of `UpdateRelease` not modelled here is
   * thrown: resolving the artist folder (before any edit), the new thumbnail
   * (after the field copies and the artist switch), or saving, the title-rename
   * check and the cache clearing (after every edit).
   */
  datatype FaultPoint = NoFault | FolderFault | ImageFault | SaveFault

  /** The answer of `UpdateRelease`. */
  datatype UpdateOutcome = ReleaseNotFound(id: int) | Updated(isSuccess: bool)

  function GenreIds(gs: seq<ReleaseGenre>): (r: seq<int>)
    ensures |r| == |gs| && forall k :: 0 <= k < |gs| ==> r[k] == gs[k].genreRoadieId
  {
    if |gs| == 0 then [] else [gs[0].genreRoadieId] + GenreIds(gs[1..])
  }

  /** The first genre of the table with the public id, if any. */
  function FindGenre(table: seq<Genre>, roadieId: int): (r: Option<Genre>)
    ensures r.Some? ==> r.value in table && r.value.roadieId == roadieId
    ensures r.None? ==> forall g :: g in table ==> g.roadieId != roadieId
  {
    if |table| == 0 then None
    else if table[0].roadieId == roadieId then Some(table[0])
    else FindGenre(table[1..], roadieId)
  }

  /** The release's genres that the model still lists, in their order. */
  function KeptGenres(current: seq<ReleaseGenre>, model: seq<int>): (r: seq<ReleaseGenre>)
    ensures forall g :: g in r <==> g in current && g.genreRoadieId in model
  {
    if |current| == 0 then []
    else
      var rest := KeptGenres(current[1..], model);
      assert forall g :: g in current <==> g == current[0] || g in current[1..];
      if current[0].genreRoadieId in model then [current[0]] + rest else rest
  }

  /** One step of adding model genres: a genre not yet linked and present in the table is linked. */
  function AddGenre(present: seq<ReleaseGenre>, id: int, table: seq<Genre>): seq<ReleaseGenre> {
    if id !in GenreIds(present) && FindGenre(table, id).Some? then
      present + [ReleaseGenre(FindGenre(table, id).value.id, id)]
    else present
  }

  /** Adding the model's genres in order. */
  function AddedGenres(present: seq<ReleaseGenre>, model: seq<int>, table: seq<Genre>): seq<ReleaseGenre> {
    if |model| == 0 then present
    else AddGenre(AddedGenres(present, model[..|model| - 1], table), model[|model| - 1], table)
  }

  /**
   * The genre reconciliation of `UpdateRelease`: for a non-empty model list, drop
   * the genres it does not name and link the named ones the table has; for a null
   * or empty list, drop every genre.
   */
  function SyncGenres(current: seq<ReleaseGenre>, model: Option<seq<int>>, table: seq<Genre>): seq<ReleaseGenre> {
    if model.Some? && |model.value| > 0 then AddedGenres(KeptGenres(current, model.value), model.value, table)
    else []
  }

  lemma {:induction false} AddedGenresIds(present: seq<ReleaseGenre>, model: seq<int>, table: seq<Genre>)
    ensures forall id :: id in GenreIds(AddedGenres(present, model, table)) <==>
      id in GenreIds(present) || (id in model && FindGenre(table, id).Some?)
    ensures forall g :: g in present ==> g in AddedGenres(present, model, table)
  {
    if |model| > 0 {
      var init := model[..|model| - 1];
      var x := model[|model| - 1];
      AddedGenresIds(present, init, table);
      var p := AddedGenres(present, init, table);
      assert model == init + [x];
      if x !in GenreIds(p) && FindGenre(table, x).Some? {
        var q := p + [ReleaseGenre(FindGenre(table, x).value.id, x)];
        assert GenreIds(q) == GenreIds(p) + [x];
      }
    }
  }

  /**
   * After reconciliation with a non-empty list, the release is linked to exactly
   * the listed genres it already had or that the table holds.
   */
  lemma SyncGenresSpec(current: seq<ReleaseGenre>, model: seq<int>, table: seq<Genre>)
    requires |model| > 0
    ensures forall id :: id in GenreIds(SyncGenres(current, Some(model), table)) <==>
      id in model && (id in GenreIds(current) || FindGenre(table, id).Some?)
    ensures forall g :: g in current && g.genreRoadieId in model ==> g in SyncGenres(current, Some(model), table)
  {
    var kept := KeptGenres(current, model);
    AddedGenresIds(kept, model, table);
    KeptGenresIds(current, model);
  }

  /** The kept genres are linked to exactly the listed ids the release already had. */
  lemma KeptGenresIds(current: seq<ReleaseGenre>, model: seq<int>)
    ensures forall id :: id in GenreIds(KeptGenres(current, model)) <==> id in model && id in GenreIds(current)
  {
    var kept := KeptGenres(current, model);
    forall id
      ensures id in GenreIds(kept) <==> id in model && id in GenreIds(current)
    {
      InGenreIds(kept, id);
      InGenreIds(current, id);
    }
  }

  /** An id is linked exactly when some link carries it. */
  lemma InGenreIds(gs: seq<ReleaseGenre>, id: int)
    ensures id in GenreIds(gs) <==> exists g :: g in gs && g.genreRoadieId == id
  {
    if id in GenreIds(gs) {
      var k :| 0 <= k < |gs| && GenreIds(gs)[k] == id;
      assert gs[k] in gs;
    }
    if exists g :: g in gs && g.genreRoadieId == id {
      var g :| g in gs && g.genreRoadieId == id;
      var k :| 0 <= k < |gs| && gs[k] == g;
      assert GenreIds(gs)[k] == id;
    }
  }

  /** Adding never links a genre twice: an already linked id is skipped. */
  lemma {:induction false} AddedGenresNoDuplicates(present: seq<ReleaseGenre>, model: seq<int>, table: seq<Genre>)
    requires NoDuplicateIds(present)
    ensures NoDuplicateIds(AddedGenres(present, model, table))
  {
    if |model| > 0 {
      var init := model[..|model| - 1];
      var x := model[|model| - 1];
      AddedGenresNoDuplicates(present, init, table);
      var p := AddedGenres(present, init, table);
      if x !in GenreIds(p) && FindGenre(table, x).Some? {
        var q := p + [ReleaseGenre(FindGenre(table, x).value.id, x)];
        assert GenreIds(q) == GenreIds(p) + [x];
      }
    }
  }

  ghost predicate NoDuplicateIds(gs: seq<ReleaseGenre>) {
    forall i, j :: 0 <= i < j < |gs| ==> gs[i].genreRoadieId != gs[j].genreRoadieId
  }

  /** The artist the model names, when the table has it and it differs from the current one. */
  function NewArtistId(current: int, modelArtist: Option<int>, artists: seq<ArtistKey>): (r: int)
    ensures r == current || exists a :: a in artists && a.id == r && modelArtist == Some(a.roadieId)
    ensures modelArtist.Some? && (exists a :: a in artists && a.roadieId == modelArtist.value) ==>
      r == FindArtist(artists, modelArtist.value).value.id
    ensures !(modelArtist.Some? && exists a :: a in artists && a.roadieId == modelArtist.value) ==> r == current
  {
    if modelArtist.None? then current
    else
      var found := FindArtist(artists, modelArtist.value);
      if found.Some? && found.value.id != current then found.value.id else current
  }

  /** `FirstOrDefault(RoadieId == roadieId)` over the artist table. */
  function FindArtist(artists: seq<ArtistKey>, roadieId: int): (r: Option<ArtistKey>)
    ensures r.Some? ==> r.value in artists && r.value.roadieId == roadieId
    ensures r.None? <==> forall a :: a in artists ==> a.roadieId != roadieId
    ensures r.Some? ==>
      exists i :: 0 <= i < |artists| && artists[i] == r.value && forall j :: 0 <= j < i ==> artists[j].roadieId != roadieId
  {
    if |artists| == 0 then None
    else if artists[0].roadieId == roadieId then Some(artists[0])
    else FindArtist(artists[1..], roadieId)
  }

  /**
   * `UpdateRelease`: an unknown release is reported not found and nothing changes.
   * Otherwise the model's fields are copied, the lists are stored delimited (null
   * when empty), the artist is switched when the model names a known one, the
   * genres are reconciled and the release is stamped. `fault` says where an
   * exception from the parts not modelled here is thrown; it is caught, turns the
   * outcome into a failure, and the edits after that point are never made.
   */
  method UpdateRelease(release: Release?, model: ReleaseModel, genreTable: seq<Genre>, artists: seq<ArtistKey>,
                       now: int, fault: FaultPoint) returns (r: UpdateOutcome)
    modifies release
    ensures release == null ==> r == ReleaseNotFound(model.id)
    ensures release != null ==> r == Updated(fault == NoFault)
    ensures release != null && fault == FolderFault ==>
      release.title == old(release.title) && release.rating == old(release.rating)
      && release.alternateNames == old(release.alternateNames) && release.tags == old(release.tags)
      && release.urls == old(release.urls) && release.artistId == old(release.artistId)
    ensures release != null && fault != FolderFault ==>
      release.title == model.title && release.rating == model.rating
      && release.alternateNames == ListExt.ToDelimitedList(model.alternateNames, '|')
      && release.tags == ListExt.ToDelimitedList(model.tags, '|')
      && release.urls == ListExt.ToDelimitedList(model.urls, '|')
      && release.artistId == NewArtistId(old(release.artistId), model.artist, artists)
    ensures release != null && (fault == FolderFault || fault == ImageFault) ==>
      release.genres == old(release.genres) && release.lastUpdated == old(release.lastUpdated)
    ensures release != null && (fault == NoFault || fault == SaveFault) ==>
      release.genres == SyncGenres(old(release.genres), model.genres, genreTable)
      && release.lastUpdated == Some(now)
  {
    if release == null {
      return ReleaseNotFound(model.id);
    }
    if fault == FolderFault {
      return Updated(false);
    }
    release.title := model.title;
    release.alternateNames := ListExt.ToDelimitedList(model.alternateNames, '|');
    release.rating := model.rating;
    release.tags := ListExt.ToDelimitedList(model.tags, '|');
    release.urls := ListExt.ToDelimitedList(model.urls, '|');
    if model.artist.Some? {
      var artist := FindArtist(artists, model.artist.value);
      if artist.Some? && release.artistId != artist.value.id {
        release.artistId := artist.value.id;
      }
    }
    if fault == ImageFault {
      return Updated(false);
    }
    if model.genres.Some? && |model.genres.value| > 0 {
      release.genres := ReconcileGenres(release.genres, model.genres.value, genreTable);
    } else {
      release.genres := [];
    }
    release.lastUpdated := Some(now);
    r := Updated(fault == NoFault);
  }

  /**
   * The two genre loops of the update: remove the linked genres the list does
   * not name, then link the named ones not linked yet that the genre table has.
   */
  method ReconcileGenres(current: seq<ReleaseGenre>, listed: seq<int>, genreTable: seq<Genre>)
    returns (linked: seq<ReleaseGenre>)
    ensures linked == AddedGenres(KeptGenres(current, listed), listed, genreTable)
  {
    var kept: seq<ReleaseGenre> := [];
    for i := 0 to |current|
      invariant kept == KeptGenres(current[..i], listed)
    {
      KeptGenresSnoc(current[..i], current[i], listed);
      assert current[..i + 1] == current[..i] + [current[i]];
      if current[i].genreRoadieId in listed {
        kept := kept + [current[i]];
      }
    }
    assert current[..|current|] == current;
    linked := kept;
    for i := 0 to |listed|
      invariant linked == AddedGenres(kept, listed[..i], genreTable)
    {
      assert listed[..i + 1][..i] == listed[..i];
      var id := listed[i];
      if id !in GenreIds(linked) {
        var g := FindGenre(genreTable, id);
        if g.Some? {
          linked := linked + [ReleaseGenre(g.value.id, id)];
        }
      }
    }
    assert listed[..|listed|] == listed;
  }

  lemma {:induction false} KeptGenresSnoc(s: seq<ReleaseGenre>, g: ReleaseGenre, model: seq<int>)
    ensures KeptGenres(s + [g], model) == KeptGenres(s, model) + (if g.genreRoadieId in model then [g] else [])
  {
    if |s| > 0 {
      assert (s + [g])[1..] == s[1..] + [g];
      KeptGenresSnoc(s[1..], g, model);
    }
  }
}
