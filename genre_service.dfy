/**
 * The genre list: the sort-key rewrite, the name filter, the random-mode limit
 * and the paging figures of one page of genres.
 */
module GenreService {
  import opened Wrappers
  import opened Numeric
  import Text
  import Paging

  /**
   * The sort rewrite: every "createdDate" becomes "createdDateTime", then every
   * "lastUpdated" becomes "lastUpdatedDateTime" (ordinal, case-sensitive).
   */
  function RewriteSort(sort: string): (r: string)
    ensures !Text.Contains(sort, "createdDate") && !Text.Contains(sort, "lastUpdated") ==> r == sort
  {
    var r := Text.Replace(Text.Replace(sort, "createdDate", "createdDateTime"), "lastUpdated", "lastUpdatedDateTime");
    if !Text.Contains(sort, "createdDate") && !Text.Contains(sort, "lastUpdated") then
      Text.ReplaceAbsent(sort, "createdDate", "createdDateTime");
      Text.ReplaceAbsent(sort, "lastUpdated", "lastUpdatedDateTime");
      r
    else r
  }


  /** A sort shorter than either key cannot hold one and is left as it is. */
  lemma RewriteShort(sort: string)
    requires |sort| < 11
    ensures RewriteSort(sort) == sort
  {
  }

  /** A leading "createdDate" becomes "createdDateTime"; the rest is rewritten on its own. */
  lemma RewriteLeadingCreatedDate(rest: string)
    ensures RewriteSort("createdDate" + rest) == "createdDateTime" + RewriteSort(rest)
  {
    Text.ReplaceLeadingMatch("createdDate", rest, "createdDateTime");
    var once := Text.Replace(rest, "createdDate", "createdDateTime");
    assert 'l' !in "createdDateTime";
    Text.ReplaceSkipsPrefix("createdDateTime", once, "lastUpdated", "lastUpdatedDateTime");
  }

  /** A leading "lastUpdated" becomes "lastUpdatedDateTime"; the rest is rewritten on its own. */
  lemma RewriteLeadingLastUpdated(rest: string)
    ensures RewriteSort("lastUpdated" + rest) == "lastUpdatedDateTime" + RewriteSort(rest)
  {
    assert 'c' !in "lastUpdated";
    Text.ReplaceSkipsPrefix("lastUpdated", rest, "createdDate", "createdDateTime");
    var once := Text.Replace(rest, "createdDate", "createdDateTime");
    Text.ReplaceLeadingMatch("lastUpdated", once, "lastUpdatedDateTime");
  }

  /**
   * A leading character that does not start either key is kept and the rest is
   * rewritten on its own. With the two lemmas above, this settles the rewrite of
   * every sort, one leading character or key at a time.
   */
  lemma RewriteLeadingNonKey(c: char, rest: string)
    requires !Text.StartsWith([c] + rest, "createdDate") && !Text.StartsWith([c] + rest, "lastUpdated")
    ensures RewriteSort([c] + rest) == [c] + RewriteSort(rest)
  {
    Text.ReplaceNoLeadingMatch(c, rest, "createdDate", "createdDateTime");
    var once := Text.Replace(rest, "createdDate", "createdDateTime");
    assert !Text.StartsWith([c] + once, "lastUpdated") by {
      Text.ReplaceKeepsHead(rest, "createdDate", "createdDateTime");
      if |rest| >= 10 {
        assert ([c] + once)[..11] == [c] + once[..10];
        assert ([c] + rest)[..11] == [c] + rest[..10];
      } else {
        assert once == rest;
      }
    }
    Text.ReplaceNoLeadingMatch(c, once, "lastUpdated", "lastUpdatedDateTime");
  }

  /** Any other leading character is kept; the rest is rewritten on its own. */
  lemma RewriteLeadingOther(c: char, rest: string)
    requires c != 'c' && c != 'l'
    ensures RewriteSort([c] + rest) == [c] + RewriteSort(rest)
  {
    Text.ReplaceSkipsPrefix([c], rest, "createdDate", "createdDateTime");
    var once := Text.Replace(rest, "createdDate", "createdDateTime");
    Text.ReplaceSkipsPrefix([c], once, "lastUpdated", "lastUpdatedDateTime");
  }

  /** A sort on "createdDate" is sent to the column "createdDateTime". */
  lemma RewriteCreatedDate(sort: string)
    requires sort == "createdDate"
    ensures RewriteSort(sort) == "createdDateTime"
  {
    RewriteLeadingCreatedDate("");
    assert sort == "createdDate" + "";
    RewriteShort("");
  }

  /**
   * The rewrite is not idempotent: a sort already naming "createdDateTime" is
   * rewritten again, to "createdDateTimeTime", a column that does not exist.
   */
  lemma RewriteNotIdempotent(sort: string)
    requires sort == "createdDateTime"
    ensures RewriteSort(sort) == "createdDateTimeTime"
    ensures RewriteSort(sort) != sort
  {
    var once := Text.Replace(sort, "createdDate", "createdDateTime");
    assert once == "createdDateTimeTime" by {
      assert sort[..11] == "createdDate";
      var rest := sort[11..];
      assert rest == "Time";
      assert Text.Replace(rest, "createdDate", "createdDateTime") == rest;
      assert once == "createdDateTime" + rest;
    }
    assert 'l' !in once;
    Text.ReplaceSkipsPrefix(once, "", "lastUpdated", "lastUpdatedDateTime");
    assert once + "" == once;
  }


  /** A genre row as the list reads it. */
  datatype GenreRow = GenreRow(id: int, roadieId: int, name: string, releaseCount: nat, artistCount: nat)

  /** A genre is listed when the filter is empty or its name contains the filter. */
  predicate KeepGenre(g: GenreRow, filterValue: string) {
    |filterValue| == 0 || Text.Contains(g.name, filterValue)
  }

  /** The genres the filter keeps, in table order. */
  function FilterGenres(genres: seq<GenreRow>, filterValue: string): (r: seq<GenreRow>)
    ensures |r| <= |genres|
    ensures forall g :: g in r <==> g in genres && KeepGenre(g, filterValue)
    ensures |filterValue| == 0 ==> r == genres
  {
    if |genres| == 0 then []
    else
      var rest := FilterGenres(genres[1..], filterValue);
      assert forall g :: g in genres <==> g == genres[0] || g in genres[1..];
      if KeepGenre(genres[0], filterValue) then [genres[0]] + rest else rest
  }

  /** The ordering used when the request has no sort of its own. */
  const DefaultGenreSort: seq<(string, string)> := [("Genre.Text", "ASC")]

  /**
   * `GenreService.List`: the sort rewrite, the filter, the random-mode clamp and
   * one page of the filtered rows with its figures. `sortBy` is the ORDER BY text
   * handed to the query (none in random mode); the rows are taken in table order,
   * since the ordering itself is done by the query engine.
   */
  method List(request: Paging.PagedRequest, genres: seq<GenreRow>, doRandomize: bool, userRandomLimit: Option<Int16>)
    returns (result: Paging.PagedResult<GenreRow>, sortBy: Option<string>)
    modifies request
    ensures !Paging.IsNullOrEmpty(old(request.sort)) ==> request.sort == Some(RewriteSort(old(request.sort).value))
    ensures Paging.IsNullOrEmpty(old(request.sort)) ==> request.sort == old(request.sort)
    ensures request.filter == old(request.filter) && request.page == old(request.page)
    ensures request.action == old(request.action) && request.order == old(request.order)
    ensures request.filterFromYear == old(request.filterFromYear) && request.filterToYear == old(request.filterToYear)
    ensures request.filterByGenre == old(request.filterByGenre)
    ensures old(request.skipMemo).Some? ==> request.skipMemo == old(request.skipMemo)
    ensures old(request.skipMemo).None? && request.page.Some? ==>
      request.skipMemo == Some(Wrap32(request.page.value * request.LimitValue() - request.LimitValue()))
    ensures old(request.skipMemo).None? && request.page.None? ==> request.skipMemo == None
    ensures doRandomize ==>
      request.limit == Some(Paging.RandomLimit(old(request.LimitValue()), userRandomLimit)) && sortBy.None?
    ensures !doRandomize ==> request.limit == old(request.limit) && sortBy.Some?
    ensures !doRandomize && Paging.IsNullOrEmpty(request.sort) ==> sortBy == Some("Genre.Text ASC")
    ensures var filtered := FilterGenres(genres, request.FilterValue());
      result.IsSuccess()
      && result.totalCount == |filtered|
      && result.currentPage == request.PageValue()
      && result.totalPages == Paging.TotalPages(|filtered|, request.LimitValue())
      && result.rows == Some(Paging.SkipTake(filtered, request.skipMemo.GetOr(0), request.LimitValue()))
  {
    if !Paging.IsNullOrEmpty(request.sort) {
      request.sort := Some(RewriteSort(request.sort.value));
    }
    var filtered := FilterGenres(genres, request.FilterValue());
    var rowCount := |filtered|;
    if doRandomize {
      request.limit := Some(Paging.RandomLimit(request.LimitValue(), userRandomLimit));
      sortBy := None;
    } else {
      var orderBy := if Paging.IsNullOrEmpty(request.sort) then Some(DefaultGenreSort) else None;
      var s := request.OrderValue(orderBy, None, None);
      if Paging.IsNullOrEmpty(request.sort) {
        var term := Paging.OrderTerm("Genre.Text", "ASC");
        assert request.OrderTerms(orderBy, None, None) == [term];
        assert term == "Genre.Text ASC";
      }
      sortBy := Some(s);
    }
    var skip := request.SkipValue();
    var rows := Paging.SkipTake(filtered, skip, request.LimitValue());
    result := Paging.PagedResult(Some(rows), request.PageValue(), Paging.TotalPages(rowCount, request.LimitValue()),
                                 rowCount, Paging.OkMessage, 0);
  }
}
