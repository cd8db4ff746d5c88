/**
 * Paged list requests and results: page/limit defaults, the memoised skip
 * offset, the ORDER BY text builder, page counts and LINQ `Skip`/`Take`.
 */
module Paging {
  import opened Wrappers
  import Text
  import opened Numeric

  const OrderDescDirection: string := "DESC"
  const OrderAscDirection: string := "ASC"

  /** One `key value` fragment of an ORDER BY text. */
  function OrderTerm(key: string, direction: string): string {
    key + " " + direction
  }

  /** The ORDER BY fragments for a list of `(key, direction)` pairs, in order. */
  function PairTerms(pairs: seq<(string, string)>): (r: seq<string>)
    ensures |r| == |pairs|
    ensures forall i :: 0 <= i < |pairs| ==> r[i] == OrderTerm(pairs[i].0, pairs[i].1)
  {
    if |pairs| == 0 then [] else [OrderTerm(pairs[0].0, pairs[0].1)] + PairTerms(pairs[1..])
  }

  predicate IsNullOrEmpty(s: Option<string>) {
    s.None? || s.value == ""
  }

  class PagedRequest {
    var action: Option<string>
    var page: Option<Int32>
    var sort: Option<string>
    var order: Option<string>
    var limit: Option<Int16>
    /** The memo behind `SkipValue`: set by the setter or by the first computed read. */
    var skipMemo: Option<Int32>
    var filter: Option<string>
    var filterFromYear: Option<int>
    var filterToYear: Option<int>
    var filterByGenre: Option<string>

    /** A new request asks for page 1 with 10 rows and carries no filter. */
    constructor ()
      ensures page == Some(1) && limit == Some(10) && skipMemo == None
      ensures action == None && sort == None && order == None && filter == None
      ensures filterFromYear == None && filterToYear == None && filterByGenre == None
    {
      action, page, sort, order := None, Some(1), None, None;
      limit, skipMemo, filter := Some(10), None, None;
      filterFromYear, filterToYear, filterByGenre := None, None, None;
    }

    /** `Action`, or the empty text when it is null. */
    function ActionValue(): (r: string)
      reads this
      ensures action.Some? ==> r == action.value
      ensures action.None? ==> r == ""
    {
      action.GetOr("")
    }

    /** `Filter`, or the empty text when it is null. */
    function FilterValue(): (r: string)
      reads this
      ensures filter.Some? ==> r == filter.value
      ensures r == "" <==> IsNullOrEmpty(filter)
    {
      filter.GetOr("")
    }

    /** `Page`, or 1 when it is null. */
    function PageValue(): (r: Int32)
      reads this
      ensures page.Some? ==> r == page.value
      ensures page.None? ==> r == 1
    {
      page.GetOr(1)
    }

    /** `Limit`, where -1 means "all" (capped at 500) and null means 50. */
    function LimitValue(): (r: Int16)
      reads this
      ensures limit == Some(-1) ==> r == 500
      ensures limit == None ==> r == 50
      ensures limit.Some? && limit.value != -1 ==> r == limit.value
    {
      if limit == Some(-1) then 500 else limit.GetOr(50)
    }

    /**
     * The `SkipValue` getter. An explicit or earlier computed value wins; otherwise,
     * with a page, `Page * LimitValue - LimitValue` (32-bit, no clamp) is computed and
     * remembered; without a page the answer is 0 and nothing is remembered.
     */
    method SkipValue() returns (r: Int32)
      modifies this`skipMemo
      ensures old(skipMemo).Some? ==> r == old(skipMemo).value && skipMemo == old(skipMemo)
      ensures old(skipMemo).None? && page.Some? ==>
        r == Wrap32(page.value * LimitValue() - LimitValue()) && skipMemo == Some(r)
      ensures old(skipMemo).None? && page.None? ==> r == 0 && skipMemo == None
    {
      if skipMemo.None? {
        if page.Some? {
          skipMemo := Some(Wrap32(page.value * LimitValue() - LimitValue()));
        } else {
          return 0;
        }
      }
      r := skipMemo.value;
    }

    /** The `SkipValue` setter. */
    method SetSkipValue(v: Int32)
      modifies this`skipMemo
      ensures skipMemo == Some(v)
    {
      skipMemo := Some(v);
    }

    /** The fragments `OrderValue` joins: the request's own sort first, then each pair. */
    ghost function OrderTerms(orderBy: Option<seq<(string, string)>>, defaultSortBy: Option<string>,
                              defaultOrderBy: Option<string>): seq<string>
      reads this
    {
      (if IsNullOrEmpty(sort) then []
       else [OrderTerm(sort.value, order.GetOr(defaultOrderBy.GetOr(OrderAscDirection)))])
      + PairTerms(orderBy.GetOr([]))
    }

    /**
     * `OrderValue`: the request's `Sort` with its direction (else `defaultOrderBy`,
     * else ASC), followed by every given pair, comma-separated.
     */
    method OrderValue(orderBy: Option<seq<(string, string)>>, defaultSortBy: Option<string>,
                      defaultOrderBy: Option<string>) returns (r: string)
      ensures r == Text.Join(OrderTerms(orderBy, defaultSortBy, defaultOrderBy), ',')
      ensures IsNullOrEmpty(sort) && (orderBy.None? || |orderBy.value| == 0) ==> r == ""
      ensures !IsNullOrEmpty(sort) ==>
        Text.StartsWith(r, OrderTerm(sort.value, order.GetOr(defaultOrderBy.GetOr(OrderAscDirection))))
    {
      ghost var first: seq<string> := [];
      var head := "";
      if !IsNullOrEmpty(sort) {
        head := OrderTerm(sort.value, order.GetOr(defaultOrderBy.GetOr(OrderAscDirection)));
        first := [head];
      }
      r := AppendPairs(head, first, orderBy.GetOr([]));
      if |first| > 0 {
        Text.JoinStartsWith(first + PairTerms(orderBy.GetOr([])), ',');
      }
    }
  }

  /**
   * The `foreach` of `OrderValue`: appends each pair as "key value" to the text
   * built so far, with a comma before it unless the text is still empty.
   */
  method AppendPairs(start: string, ghost done0: seq<string>, pairs: seq<(string, string)>) returns (r: string)
    requires start == Text.Join(done0, ',') && (|start| > 0 <==> |done0| > 0)
    ensures r == Text.Join(done0 + PairTerms(pairs), ',')
  {
    r := start;
    ghost var done := done0;
    for i := 0 to |pairs|
      invariant done == done0 + PairTerms(pairs[..i])
      invariant r == Text.Join(done, ',')
      invariant |r| > 0 <==> |done| > 0
    {
      var term := OrderTerm(pairs[i].0, pairs[i].1);
      if |r| > 0 {
        r := r + ",";
      }
      r := r + term;
      JoinSnoc(done, term, ',');
      PairTermsSnoc(pairs[..i], pairs[i]);
      assert pairs[..i + 1] == pairs[..i] + [pairs[i]];
      done := done + [term];
    }
    assert pairs[..|pairs|] == pairs;
  }

  lemma PairTermsSnoc(pairs: seq<(string, string)>, p: (string, string))
    ensures PairTerms(pairs + [p]) == PairTerms(pairs) + [OrderTerm(p.0, p.1)]
  {
    assert forall i :: 0 <= i < |pairs| ==> (pairs + [p])[i] == pairs[i];
  }

  /** Appending one part to a join adds the delimiter only when something came before. */
  lemma {:induction false} JoinSnoc(parts: seq<string>, x: string, d: char)
    ensures Text.Join(parts + [x], d) == if |parts| == 0 then x else Text.Join(parts, d) + [d] + x
  {
    if |parts| == 1 {
      assert parts + [x] == [parts[0], x];
    } else if |parts| > 1 {
      assert (parts + [x])[1..] == parts[1..] + [x];
      JoinSnoc(parts[1..], x, d);
    }
  }

  /**
   * `(int)Math.Ceiling((double)count / limit)`: the number of pages of `limit` rows
   * needed for `count` rows. A zero limit divides by zero in floating point and has
   * no defined page count.
   */
  function TotalPages(count: nat, limit: int): (r: Option<int>)
    ensures r.None? <==> limit == 0
    ensures limit > 0 ==> r.value >= 0 && (r.value - 1) * limit < count <= r.value * limit
    ensures limit > 0 ==> (r.value == 0 <==> count == 0)
    ensures limit < 0 ==> r.value * limit <= count < (r.value - 1) * limit
  {
    if limit == 0 then None
    else if limit > 0 then Some((count + limit - 1) / limit)
    else Some(-(count / -limit))
  }

  /** The row cap of random mode when the user sets none. */
  const DefaultRandomLimit: Int16 := 100

  /**
   * The random-mode clamp the list services apply to `Limit`: the user's
   * `RandomReleaseLimit` (100 when unset) if the limit is larger, else the limit.
   */
  function RandomLimit(limitValue: Int16, userLimit: Option<Int16>): (r: Int16)
    ensures r <= limitValue && r <= userLimit.GetOr(DefaultRandomLimit)
    ensures r == limitValue || r == userLimit.GetOr(DefaultRandomLimit)
  {
    var cap := userLimit.GetOr(DefaultRandomLimit);
    if limitValue > cap then cap else limitValue
  }

  /** LINQ `rows.Skip(skip).Take(take)`: a negative skip skips nothing, a negative take takes nothing. */
  function SkipTake<T>(rows: seq<T>, skip: int, take: int): (r: seq<T>)
    ensures var s := if skip < 0 then 0 else if skip > |rows| then |rows| else skip;
      |r| == (if take < 0 then 0 else if take > |rows| - s then |rows| - s else take)
      && forall i :: 0 <= i < |r| ==> r[i] == rows[s + i]
  {
    var s := if skip < 0 then 0 else if skip > |rows| then |rows| else skip;
    var n := if take < 0 then 0 else if take > |rows| - s then |rows| - s else take;
    rows[s..s + n]
  }

  /** The text of `OperationMessages.OkMessage`; its literal value is not part of this model. */
  const OkMessage: string := "OK"

  /**
   * One page of rows with its paging figures and outcome message. `totalPages`
   * is `None` where the page count divides by a zero limit.
   */
  datatype PagedResult<T> = PagedResult(rows: Option<seq<T>>, currentPage: int, totalPages: Option<int>,
                                        totalCount: int, message: string, operationTime: int)
  {
    /** Success is derived from the message alone. */
    predicate IsSuccess() {
      message == OkMessage
    }
  }

  /** A freshly constructed result: no rows, zero figures, the OK message. */
  function NewPagedResult<T>(): (r: PagedResult<T>)
    ensures r.IsSuccess()
    ensures r.rows.None? && r.currentPage == 0 && r.totalPages == Some(0) && r.totalCount == 0
  {
    PagedResult(None, 0, Some(0), 0, OkMessage, 0)
  }

  /** Assigning `Message` decides success; assigning rows or figures leaves it alone. */
  lemma MessageDecidesSuccess<T>(p: PagedResult<T>, m: string, rows: Option<seq<T>>, page: int, pages: Option<int>,
                                  count: int)
    ensures p.(message := m).IsSuccess() <==> m == OkMessage
    ensures p.(rows := rows, currentPage := page, totalPages := pages, totalCount := count).IsSuccess()
      == p.IsSuccess()
  {
  }
}
