# Roadie core, modelled in Dafny

Roadie is a self-hosted music server with an HTTP API and a Subsonic-compatible API.
This project models the parts of it that are visible sequential logic, and proves
properties of that model:

- **Paging.** `PagedRequest` covers page and limit defaults, the memoised skip offset and
  the ORDER BY text builder. `PagedResult` derives its success flag from the message. The
  page count and LINQ `Skip`/`Take` are here too.
- **Cache.** `DictionaryCacheManager` is a dictionary with replace-on-add, remove, clear
  and compute-if-absent reads.
- **List helpers and the artist model.**
  - `ToDelimitedList` joins a list into pipe-delimited text.
  - `Shuffle` is an in-place Fisher–Yates style shuffle.
  - `Artist.ISNIListList` splits the text again, so joining and splitting form a round trip.
- **Discogs provider.**
  - Search-request parameters.
  - The mapping of search and detail responses: thumbnail choice, image and link lists,
    de-duplicated name variations, the earliest release, track numbering, labels and the
    barcode tag.
  - The catch-all that turns every fault into a failed outcome.
- **Playlist factory.** Adding tracks without duplicates, then renumbering a playlist 1..n
  in creation order.
- **Release service.**
  - `List` normalises the request: the genre prefix, the year-range swap, the quoted exact
    filter and the random-mode limit.
  - The rows it keeps, and its page count.
  - `UpdateRelease` copies fields and reconciles genres.
- **User service.** The bookmark toggle, the ordered checks and field update of
  `UpdateProfile`, and the statistics counts.
- **Genre service.** The sort-key rewrite, the name filter, random mode and one page of
  genres with its figures.
- **Subsonic service.**
  - Search-query sanitising.
  - Playlist update and delete, with their shared ownership check.
  - The saved play queue.
  - Rating and star dispatch.
  - Artist index grouping, the fixed music folders and chat messages.

The code is modelled in the form it has in the source:
- Objects whose fields change become classes: the paged request, the cache, the playlist
  and release entities, and the in-memory tables that stand in for the database.
- Loops become methods with loop invariants, proved against specification functions: the
  ORDER BY builder, the shuffle, track numbering, renumbering, genre reconciliation,
  playlist appending and play-queue saving.
- Pure expressions become functions.

Database tables are sequences or maps held by store objects. Dates are integers supplied
by the caller. Every HTTP answer is an input record.

C# `short` and `int` arithmetic is modelled with explicit two's-complement wrap-around
(`Numeric.Wrap16`, `Numeric.Wrap32`). This applies to the skip offset, track numbers and
queue sort orders.

Two behaviours of the code are worth knowing before reading the model:
- Name variations are de-duplicated by LINQ `Distinct()`, which compares names exactly
  (ordinal, case-sensitive).
- The genre sort rewrite is not idempotent: a sort already naming `createdDateTime` is
  rewritten to `createdDateTimeTime`, since each occurrence of `createdDate` gains the
  suffix `Time`.

## Model

| member | source | states |
|---|---|---|
| Numeric.Wrap16 | Roadie.Api.Library/SearchEngines/MetaData/Discogs/DiscogsHelper.cs:277-292 | a `short` result equals the exact value when that is in range |
| Numeric.Wrap16Congruent | Roadie.Api.Library/SearchEngines/MetaData/Discogs/DiscogsHelper.cs:277-292 | a `short` result is congruent to the exact value mod 2^16 |
| Numeric.Wrap32 | Roadie.Api.Library/Models/Pagination/PagedRequest.cs:51-56 | an `int` result equals the exact value when that is in range |
| Numeric.Wrap32Congruent | Roadie.Api.Library/Models/Pagination/PagedRequest.cs:51-56 | an `int` result is congruent to the exact value mod 2^32 |
| Paging.PagedRequest.constructor | Roadie.Api.Library/Models/Pagination/PagedRequest.cs:121-122 | a new request has Page 1, Limit 10, no skip and no filter, sort or action |
| Paging.PagedRequest.ActionValue | Roadie.Api.Library/Models/Pagination/PagedRequest.cs:14-21 | `Action`, or "" when it is null; never null |
| Paging.PagedRequest.FilterValue | Roadie.Api.Library/Models/Pagination/PagedRequest.cs:69-76 | `Filter`, or "" when null; "" exactly when `Filter` is null or empty |
| Paging.PagedRequest.PageValue | Roadie.Api.Library/Models/Pagination/PagedRequest.cs:23-30 | `Page` when set, else 1 |
| Paging.PagedRequest.LimitValue | Roadie.Api.Library/Models/Pagination/PagedRequest.cs:33-45 | Limit -1 gives 500, null gives 50, any other value is returned as is |
| Paging.PagedRequest.SkipValue | Roadie.Api.Library/Models/Pagination/PagedRequest.cs:46-63 | a memo or explicit value wins and is kept; with a page, `Page*LimitValue-LimitValue` (32-bit, no clamp, so page 0 is negative) is computed and memoised; without a page, 0 and nothing memoised |
| Paging.PagedRequest.SetSkipValue | Roadie.Api.Library/Models/Pagination/PagedRequest.cs:64-67 | an explicit skip becomes the memo, which every later read returns |
| Paging.PagedRequest.OrderValue | Roadie.Api.Library/Models/Pagination/PagedRequest.cs:80-98 | the comma-join of "Sort Order" (order falling back to defaultOrderBy, then ASC) and every "key value" pair in order; "" when there is no sort and no pair; starts with the sort term when Sort is set |
| Paging.AppendPairs | Roadie.Api.Library/Models/Pagination/PagedRequest.cs:87-97 | appending the pairs, each preceded by a comma unless the text is still empty, gives the comma-join of the earlier fragments and every "key value" pair in order |
| Paging.TotalPages | Roadie.Api.Services/ReleaseService.cs:470 | for a positive limit, the least page count whose pages hold `count` rows (ceiling), 0 only for no rows; undefined for limit 0 |
| Paging.RandomLimit | Roadie.Api.Services/GenreService.cs:66-69 | random mode caps the limit at the user's random limit (100 when unset): the result is the smaller of the two |
| Paging.SkipTake | Roadie.Api.Services/GenreService.cs:70-75 | `Skip(s).Take(t)`: the rows from the clamped offset, at most `t` of them, in order |
| Paging.NewPagedResult | Roadie.Api.Library/Models/Pagination/PagedResult.cs:30-33 | a new result is a success with no rows and zero figures |
| Paging.MessageDecidesSuccess | Roadie.Api.Library/Models/Pagination/PagedResult.cs:11-28 | success holds exactly when the message is the OK message; setting rows, page or counts never changes it |
| ListExt.ToDelimitedList | Roadie.Api.Library/Extensions/ListExt.cs:29-41 | null exactly for a null or empty list; otherwise the elements joined by the delimiter, starting with the first element, a single element unchanged |
| ListExt.DelimitedListDelimiters | Roadie.Api.Library/Extensions/ListExt.cs:40 | n delimiter-free elements are joined with exactly n-1 delimiters |
| ListExt.ShuffledPermutation | Roadie.Api.Library/Extensions/ListExt.cs:15-27 | the shuffle's outcome is a permutation of the input |
| ListExt.ShuffledShort | Roadie.Api.Library/Extensions/ListExt.cs:18-26 | a list of at most one element is left unchanged |
| ListExt.ShuffledKeepsSuffix | Roadie.Api.Library/Extensions/ListExt.cs:20-26 | once the open prefix shrinks below a cell, that cell is never swapped again |
| ListExt.Shuffle | Roadie.Api.Library/Extensions/ListExt.cs:15-27 | shuffles the array in place, with every swap index in [0, n); the result is `Shuffled` of the old contents and a permutation of them |
| ArtistModel.Artist.IsniListList | RoadieLibrary/Models/Artist.cs:45-55 | null exactly for a null or empty ISNI text; otherwise 1 + (number of '\|') pieces, none containing '\|', that join back to the text |
| ArtistModel.Artist.Tooltip | RoadieLibrary/Models/Artist.cs:82-88 | the tooltip is the artist name, null included |
| ArtistModel.NewArtist | RoadieLibrary/Models/Artist.cs:92-95 | a new artist has band status "1" and no name or ISNI list |
| ArtistModel.IsniRoundTrip | RoadieLibrary/Models/Artist.cs:53 | storing a non-empty '\|'-free list with `ToDelimitedList` and reading it through `ISNIListList` gives the list back, unless it is the single empty string |
| ArtistModel.IsniEmptyElementLost | RoadieLibrary/Models/Artist.cs:49-52 | the exception: a list holding one empty string is read back as null |
| Text.JoinSplit | RoadieLibrary/Models/Artist.cs:53 | joining the pieces of `Split(d)` with `d` gives the text back |
| Text.SplitJoin | RoadieLibrary/Models/Artist.cs:53 | splitting a join of one or more `d`-free pieces gives the pieces back |
| Cache.DictionaryCacheManager.constructor | Roadie.Api.Library/Caching/DictionaryCacheManager.cs:16-20 | a new cache is empty |
| Cache.DictionaryCacheManager.Add | Roadie.Api.Library/Caching/DictionaryCacheManager.cs:22-33 | returns true; the key now maps to the value, replacing any old entry, and other keys are unchanged |
| Cache.DictionaryCacheManager.AddIn | Roadie.Api.Library/Caching/DictionaryCacheManager.cs:35-48 | the region and policy overloads behave exactly as `Add` |
| Cache.DictionaryCacheManager.Clear | Roadie.Api.Library/Caching/DictionaryCacheManager.cs:50-56 | the cache is empty afterwards |
| Cache.DictionaryCacheManager.ClearRegion | Roadie.Api.Library/Caching/DictionaryCacheManager.cs:58-64 | clearing any region empties the whole cache |
| Cache.DictionaryCacheManager.Exists | Roadie.Api.Library/Caching/DictionaryCacheManager.cs:66-80 | true exactly when the key has an entry, even a null one |
| Cache.DictionaryCacheManager.Get | Roadie.Api.Library/Caching/DictionaryCacheManager.cs:82-97 | the stored value for a present key, the default (null) for an absent one |
| Cache.DictionaryCacheManager.Remove | Roadie.Api.Library/Caching/DictionaryCacheManager.cs:118-133 | returns true and removes only that key; removing an absent key changes nothing |
| Cache.DictionaryCacheManager.GetOrAdd | Roadie.Api.Library/Caching/DictionaryCacheManager.cs:99-116 | `getItem` runs exactly when the cached value is null or missing; a hit returns the cached value and changes nothing; a miss stores and returns the computed item |
| Cache.DictionaryCacheManager.GetAsync | Roadie.Api.Library/Caching/DictionaryCacheManager.cs:135-150 | the same compute-if-absent behaviour |
| Cache.AddThenGet | Roadie.Api.Library/Caching/DictionaryCacheManager.cs:22-33 | after `Add(k, v)`, `Get(k)` is v and `Exists(k)` holds; other keys read as before |
| Cache.GetOrAddTwice | Roadie.Api.Library/Caching/DictionaryCacheManager.cs:99-116 | once `getItem` has produced a value, a second read does not call it and returns the same value |
| Cache.NullIsRecomputed | Roadie.Api.Library/Caching/DictionaryCacheManager.cs:104-113 | a stored null is not a hit: the next compute-if-absent read calls `getItem` |
| Discogs.IsEnabled | Roadie.Api.Library/SearchEngines/MetaData/Discogs/DiscogsHelper.cs:19-28 | the provider is always disabled |
| Discogs.BuildSearchRequest | Roadie.Api.Library/SearchEngines/MetaData/Discogs/DiscogsHelper.cs:395-453 | parameters in order: page=1 and per_page only for a positive count, type, the trimmed single-quoted query, the trimmed quoted artist only when non-empty, then key and secret |
| Text.TrimSpec | Roadie.Api.Library/SearchEngines/MetaData/Discogs/DiscogsHelper.cs:427 | `Trim` keeps a middle slice of its input, removes only white space from either end, and leaves none at either end |
| Discogs.Outcome | Roadie.Api.Library/SearchEngines/MetaData/Discogs/DiscogsHelper.cs:309-317 | any fault is caught; the outcome always holds one element, and is a success exactly when that element is a result |
| Discogs.ImageUrls | Roadie.Api.Library/SearchEngines/MetaData/Discogs/DiscogsHelper.cs:233 | the image list holds exactly the uris of the non-"primary" images |
| Discogs.ImageUrlsInOrder | Roadie.Api.Library/SearchEngines/MetaData/Discogs/DiscogsHelper.cs:233 | the image list keeps the input order: it distributes over concatenation, and one image contributes its uri exactly when it is not "primary" |
| Discogs.Thumbnail | Roadie.Api.Library/SearchEngines/MetaData/Discogs/DiscogsHelper.cs:234-242 | the uri of the first primary image when non-empty; otherwise the first non-empty uri; a fault exactly when no image has one |
| Discogs.ImagesAndThumbnail | Roadie.Api.Library/SearchEngines/MetaData/Discogs/DiscogsHelper.cs:75-87 | a null image list gives no images and no thumbnail; otherwise both, or the thumbnail's fault |
| Discogs.Urls | Roadie.Api.Library/SearchEngines/MetaData/Discogs/DiscogsHelper.cs:70-74 | the entity's own uri first, then its links in order |
| Discogs.Distinct | Roadie.Api.Library/SearchEngines/MetaData/Discogs/DiscogsHelper.cs:88-91 | the same set of names with no duplicates |
| Discogs.DistinctFirstOccurrenceOrder | Roadie.Api.Library/SearchEngines/MetaData/Discogs/DiscogsHelper.cs:88-91 | `Distinct()` keeps each name's first occurrence, in the order of the input |
| Discogs.OrderKeptBySnoc | Roadie.Api.Library/SearchEngines/MetaData/Discogs/DiscogsHelper.cs:88-91 | appending a name to the input keeps the first-occurrence order of the names already listed |
| Discogs.OrderExtendedBySnoc | Roadie.Api.Library/SearchEngines/MetaData/Discogs/DiscogsHelper.cs:88-91 | a name new to the input, listed last, comes after every earlier first occurrence |
| Discogs.FirstHit | Roadie.Api.Library/SearchEngines/MetaData/Discogs/DiscogsHelper.cs:48-56 | an error response or a null body is a fault; otherwise the first hit, or none when the results are null or empty |
| Discogs.PerformArtistSearch | Roadie.Api.Library/SearchEngines/MetaData/Discogs/DiscogsHelper.cs:35-115 | one hit is requested; success exactly when a first hit and its detail exist and the images yield a thumbnail; the result carries the detail's name, id and profile, the hit's type, uri-then-links, the name variations de-duplicated in first-occurrence order, and the image list and thumbnail (none for a null image list) |
| Discogs.PerformLabelSearch | Roadie.Api.Library/SearchEngines/MetaData/Discogs/DiscogsHelper.cs:117-190 | one hit of type "label" is requested; an error response fails; success exactly when a first hit and its detail exist and the images yield a thumbnail; the result carries the label's name, id, profile and uri-then-links, no alternate names, and the image list and thumbnail (none for a null image list) |
| Discogs.EarliestHit | Roadie.Api.Library/SearchEngines/MetaData/Discogs/DiscogsHelper.cs:217 | `OrderBy(year).First()` is a hit of the list with the smallest year, and the first such hit, since `OrderBy` is stable |
| Discogs.ReleaseHit | Roadie.Api.Library/SearchEngines/MetaData/Discogs/DiscogsHelper.cs:209-217 | a fault exactly for an error response or null results; a hit exactly when the results are non-empty, and then it is the first hit with the smallest year |
| Discogs.BarcodeTags | Roadie.Api.Library/SearchEngines/MetaData/Discogs/DiscogsHelper.cs:298-305 | a tag list exists exactly when the first "Barcode" identifier has a non-empty value; it is the single tag "barcode:" + value |
| Discogs.NumberTracks | Roadie.Api.Library/SearchEngines/MetaData/Discogs/DiscogsHelper.cs:270-297 | one media numbered 1, whose tracks are the tracklist sorted by position and numbered by a `short` counter from 1, with the count cast to `short` |
| Discogs.ShortTracklistNumbering | Roadie.Api.Library/SearchEngines/MetaData/Discogs/DiscogsHelper.cs:277-292 | for any mapped release of fewer than 32768 tracks, the one media numbers its tracks exactly 1..n and its count is n |
| Discogs.MapLabels | Roadie.Api.Library/SearchEngines/MetaData/Discogs/DiscogsHelper.cs:258-269 | each label becomes catalogue number, name and id, in order |
| Discogs.MapRelease | Roadie.Api.Library/SearchEngines/MetaData/Discogs/DiscogsHelper.cs:227-305 | the release result takes the detail's id, notes and genres, the hit's type, the detail's uri as only link, the release date as given, the image list and thumbnail (none for a null image list), the mapped labels, one media numbered by the `short` counter in position order (none for a null tracklist), and the barcode tag |
| Discogs.ReleaseSearchBody | Roadie.Api.Library/SearchEngines/MetaData/Discogs/DiscogsHelper.cs:209-317 | an error response fails; success exactly when the earliest hit's detail exists and its images yield a thumbnail, and then the result is the release mapped field by field as `MapRelease` states |
| Discogs.ReleaseRequest | Roadie.Api.Library/SearchEngines/MetaData/Discogs/DiscogsHelper.cs:198 | the release search asks for page 1 of ten hits of type "release" for the trimmed, quoted query, with the trimmed, quoted artist exactly when the artist name is non-empty, then the key and secret |
| Discogs.PerformReleaseSearch | Roadie.Api.Library/SearchEngines/MetaData/Discogs/DiscogsHelper.cs:195-318 | ten hits are requested, with the artist parameter exactly for a non-empty artist; success exactly when the earliest hit's detail exists and its images yield a thumbnail; the result is the release mapped field by field as `MapRelease` states, including its release date and the null-image case |
| Sorting.SortBySorted | Roadie.Api.Library/SearchEngines/MetaData/Discogs/DiscogsHelper.cs:278 | `OrderBy(key)` yields a sequence sorted by the key |
| Sorting.SortByPermutation | Roadie.Api.Library/SearchEngines/MetaData/Discogs/DiscogsHelper.cs:278 | `OrderBy(key)` yields a permutation of its input |
| Sorting.FirstMinIndex | Roadie.Api.Library/SearchEngines/MetaData/Discogs/DiscogsHelper.cs:217 | the position of the first element with the smallest key |
| Sorting.SortByHead | Roadie.Api.Library/SearchEngines/MetaData/Discogs/DiscogsHelper.cs:217 | the head of the sorted sequence is the first element with the smallest key, as a stable sort gives |
| PlaylistFactory.NumberingOrder | Roadie.Api.Library/Factories/PlaylistFactory.cs:73 | the playlist's rows ordered by creation date, as row indices |
| PlaylistFactory.NumberingOrderMembers | Roadie.Api.Library/Factories/PlaylistFactory.cs:73 | the order visits every row of the playlist and no other row |
| PlaylistFactory.NumberingOrderNoDuplicates | Roadie.Api.Library/Factories/PlaylistFactory.cs:73 | the order visits each row at most once |
| PlaylistFactory.NumberingOrderSorted | Roadie.Api.Library/Factories/PlaylistFactory.cs:73 | the order follows non-decreasing creation dates |
| PlaylistFactory.ReorderPlaylist | Roadie.Api.Library/Factories/PlaylistFactory.cs:62-88 | a null playlist answers false/false and changes nothing; otherwise its rows, in creation order, get list numbers 1..n and LastUpdated = now, and every other row is unchanged |
| PlaylistFactory.RenumberRows | Roadie.Api.Library/Factories/PlaylistFactory.cs:72-78 | the rows visited get list numbers 1, 2, ... in visiting order and the stamp now; no other row changes, and no row changes its keys |
| PlaylistFactory.ExistingRoadieIds | Roadie.Api.Library/Factories/PlaylistFactory.cs:31-38 | exactly the public ids of the tracks that have a row on the playlist |
| PlaylistFactory.NewTracks | Roadie.Api.Library/Factories/PlaylistFactory.cs:39-47 | exactly the tracks requested by public id and not already on the playlist |
| PlaylistFactory.AddTracksToPlaylist | Roadie.Api.Library/Factories/PlaylistFactory.cs:23-59 | one row created now for each new track, appended in table order; the playlist is stamped now; the old and new rows are then numbered 1..n in creation order and stamped with the reorder's own clock read; rows of other playlists are unchanged; Data is true, while IsSuccess is never set and stays false |
| PlaylistFactory.AppendRows | Roadie.Api.Library/Factories/PlaylistFactory.cs:39-47 | the table becomes the old rows followed by one new row per added track, in order |
| PlaylistFactory.NewRows | Roadie.Api.Library/Factories/PlaylistFactory.cs:41-46 | one new row per added track, in order |
| PlaylistFactory.AddedTracksAreNew | Roadie.Api.Library/Factories/PlaylistFactory.cs:31-47 | with unique track keys, no added track already has a row on the playlist and none is added twice |
| PlaylistFactory.NewTracksDistinct | Roadie.Api.Library/Factories/PlaylistFactory.cs:39-47 | selecting from a table with unique keys yields unique keys |
| ReleaseService.NormalizeListRequest | Roadie.Api.Services/ReleaseService.cs:194-236 | the genre filter applies for a named genre or a ":genre" filter (any case), with the named genre or the filter minus ":genre " as its term, and it clears Filter; a range with To > From is swapped with order DESC, any other range gives ASC, so To <= From afterwards; a quoted filter is unquoted and exact; a lone '"' throws; random mode caps Limit |
| ReleaseService.ConsumeGenreFilter | Roadie.Api.Services/ReleaseService.cs:194-206 | the genre term is taken exactly when the genre filter applies, and then `Filter` is cleared; otherwise `Filter` is kept |
| ReleaseService.OrderByYears | Roadie.Api.Services/ReleaseService.cs:207-220 | with no year bound nothing changes; To > From swaps the bounds and sorts DESC; any other range is kept and sorted ASC; afterwards To <= From whenever both are set |
| ReleaseService.UnquoteFilter | Roadie.Api.Services/ReleaseService.cs:225-235 | a filter that starts and ends with '"' loses both quotes and turns on exact matching; the one-character filter '"' faults; any other filter is kept |
| ReleaseService.KeptYearsBetweenBounds | Roadie.Api.Services/ReleaseService.cs:246-247 | a kept release with both bounds set has To <= year <= From |
| ReleaseService.ExactFilterExcludesLongerTitle | Roadie.Api.Services/ReleaseService.cs:230-253 | with the exact filter "Diana Ross", "Diana Ross & The Supremes" is not kept, though the plain filter keeps it |
| ReleaseService.ListTotalPages | Roadie.Api.Services/ReleaseService.cs:466-473 | for a positive limit, the ceiling of row count over LimitValue |
| ReleaseService.FindGenre | Roadie.Api.Services/ReleaseService.cs:679 | a genre of the table with the public id, or none when the table has none |
| ReleaseService.KeptGenres | Roadie.Api.Services/ReleaseService.cs:662-670 | exactly the linked genres the model still lists |
| ReleaseService.KeptGenresIds | Roadie.Api.Services/ReleaseService.cs:662-670 | after removal, an id is linked exactly when it was linked and the model lists it |
| ReleaseService.AddedGenresIds | Roadie.Api.Services/ReleaseService.cs:672-690 | adding links exactly the listed ids the table has, on top of those already linked, and keeps every existing link |
| ReleaseService.SyncGenresSpec | Roadie.Api.Services/ReleaseService.cs:660-691 | after reconciling with a non-empty list, a genre id is linked exactly when it is listed and was linked before or exists in the table |
| ReleaseService.AddedGenresNoDuplicates | Roadie.Api.Services/ReleaseService.cs:676-677 | adding never links the same genre twice |
| ReleaseService.ReconcileGenres | Roadie.Api.Services/ReleaseService.cs:660-691 | the two loops leave exactly the kept links followed by the added ones |
| ReleaseService.NewArtistId | Roadie.Api.Services/ReleaseService.cs:635-643 | when the model names an artist the table has, the release takes that artist's id (the first with that public id); otherwise the artist stays |
| ReleaseService.FindArtist | Roadie.Api.Services/ReleaseService.cs:637 | the first artist of the table with the public id; none exactly when no artist has it |
| ReleaseService.UpdateRelease | Roadie.Api.Services/ReleaseService.cs:590-726 | an unknown release is not found and nothing changes; otherwise title and rating are copied, the lists are stored delimited (null when empty), the artist is switched, the genres are reconciled (cleared for a null or empty list) and LastUpdated = now; a fault while resolving the folder leaves every field unchanged, one while replacing the thumbnail leaves genres and LastUpdated unchanged, one while saving keeps every edit; success is the absence of a fault |
| UserService.FirstBookmark | Roadie.Api.Services/UserService.cs:497-499 | the first bookmark of that user, kind and target, or none exactly when none exists |
| UserService.BookmarkStore.SetBookmark | Roadie.Api.Services/UserService.cs:495-532 | always reports success; switching off removes the match, switching on adds one with status Ok when there is none |
| UserService.BookmarkedSpec | Roadie.Api.Services/UserService.cs:500-524 | afterwards a bookmark exists exactly when asked for, keys stay unique, and a new bookmark carries the given keys and status Ok |
| UserService.BookmarkedIdempotent | Roadie.Api.Services/UserService.cs:495-532 | setting the same state twice gives the same table as once |
| UserService.FindUser | Roadie.Api.Services/UserService.cs:389 | the user with the public id, or none when no user has it |
| UserService.ProfileGuard | Roadie.Api.Services/UserService.cs:389-432 | checks in order: not found, access denied unless same user or admin, stale stamp, user name in use, email in use; passing means every check holds |
| UserService.UpdatedUser | Roadie.Api.Services/UserService.cs:433-452 | the normalised name and email are the upper-cased name and email; ids are kept |
| UserService.UserStore.UpdateProfile | Roadie.Api.Services/UserService.cs:387-484 | a failing check answers and saves nothing; otherwise the user's fields are saved first, and only then is a password mismatch or a failed reset reported |
| UserService.UpdateKeepsUsersConsistent | Roadie.Api.Services/UserService.cs:410-452 | a profile update that passes the checks keeps user names and emails unique and normalised |
| UserService.OwnNameRespellingRefused | Roadie.Api.Services/UserService.cs:410-420 | for any table, a permitted and current edit that respells the user's own name to the same upper-cased name is refused as a name in use |
| UserService.RenameCaseOnlyRefused | Roadie.Api.Services/UserService.cs:410-420 | the name check also sees the edited user, so renaming "bob" to "Bob" is refused as in use |
| UserService.CountWhere | Roadie.Api.Services/UserService.cs:614-623 | a count of at most the rows, 0 exactly when none match, all exactly when all match |
| UserService.PlayedSum | Roadie.Api.Services/UserService.cs:619 | the sum of the non-null play counts: 0 when none is set, non-negative when none is negative |
| UserService.Statistics | Roadie.Api.Services/UserService.cs:121-133 | every rated, favourite or disliked count is at most the rows of its table |
| UserService.CountWhereAppend | Roadie.Api.Services/UserService.cs:614-623 | counts add up over concatenated tables |
| UserService.PlayedSumAppend | Roadie.Api.Services/UserService.cs:619 | played totals add up over concatenated tables |
| UserService.NullRowAddsNothing | Roadie.Api.Services/UserService.cs:614-623 | a row with null flags counts as neither favourite nor disliked, and a null play count adds nothing |
| GenreService.RewriteSort | Roadie.Api.Services/GenreService.cs:35-39 | a sort naming neither "createdDate" nor "lastUpdated" is left unchanged |
| Text.ReplaceLeadingMatch | Roadie.Api.Services/GenreService.cs:37-38 | ordinal `Replace` on a text that starts with the pattern replaces that occurrence and goes on after it |
| Text.ReplaceSkipsPrefix | Roadie.Api.Services/GenreService.cs:37-38 | a prefix without the pattern's first character is kept as it is and the replacing goes on after it |
| GenreService.RewriteShort | Roadie.Api.Services/GenreService.cs:35-39 | a sort shorter than either key is left unchanged |
| GenreService.RewriteLeadingCreatedDate | Roadie.Api.Services/GenreService.cs:37 | a leading "createdDate" becomes "createdDateTime" and the rest is rewritten on its own |
| GenreService.RewriteLeadingLastUpdated | Roadie.Api.Services/GenreService.cs:38 | a leading "lastUpdated" becomes "lastUpdatedDateTime" and the rest is rewritten on its own |
| GenreService.RewriteLeadingOther | Roadie.Api.Services/GenreService.cs:35-39 | a leading character other than 'c' and 'l' is kept and the rest is rewritten on its own |
| GenreService.RewriteLeadingNonKey | Roadie.Api.Services/GenreService.cs:35-39 | a leading character that does not start either key is kept and the rest is rewritten on its own; with the leading-key lemmas and `RewriteShort` this fixes the rewrite of every sort |
| Text.ReplaceNoLeadingMatch | Roadie.Api.Services/GenreService.cs:37-38 | ordinal `Replace` on a text that does not start with the pattern keeps its first character and goes on after it |
| Text.ReplaceKeepsHead | Roadie.Api.Services/GenreService.cs:37 | when the replacement starts with the pattern, the first `|pat|` characters are unchanged by replacing |
| GenreService.RewriteCreatedDate | Roadie.Api.Services/GenreService.cs:37 | the sort "createdDate" becomes "createdDateTime" |
| GenreService.RewriteNotIdempotent | Roadie.Api.Services/GenreService.cs:37 | the rewrite is not idempotent: "createdDateTime" becomes "createdDateTimeTime" |
| GenreService.FilterGenres | Roadie.Api.Services/GenreService.cs:48 | a genre is kept exactly when the filter is empty or its name contains the filter; an empty filter keeps every genre |
| GenreService.List | Roadie.Api.Services/GenreService.cs:31-86 | the sort is rewritten when set; random mode caps Limit and has no ORDER BY; with no sort the ORDER BY is "Genre.Text ASC"; the skip is the memoised one, else (page - 1) * limit wrapped to `int`, else 0; action, order, filter, page and year and genre filters are unchanged; the result is a success whose count is the filtered rows, whose page count is the ceiling, and whose rows are the requested page of them |
| Subsonic.SanitizeQuery | Roadie.Api.Services/SubsonicService.cs:1530 | the query with every '*', then every '%', then every ';' replaced by "" (ordinal `Replace`), so the other characters stay in order; none of the three remains and the length drops by the number removed |
| Subsonic.SanitizeIdempotent | Roadie.Api.Services/SubsonicService.cs:1530 | sanitising twice is sanitising once |
| Subsonic.PlaylistGuard | Roadie.Api.Services/SubsonicService.cs:1748-1760 | passes exactly for a known playlist owned by the caller or with an admin caller; an unknown one is not found, any other is not authorised |
| Subsonic.PlaylistNotFoundAsWritten | Roadie.Api.Services/SubsonicService.cs:1753-1756 | the not-found answer throws exactly when the request names no track |
| Subsonic.PlaylistNotFoundThrows | Roadie.Api.Services/SubsonicService.cs:1753-1756 | an unknown playlist on a request without a track id throws, instead of the not-found answer the guard gives |
| Subsonic.Submitted | Roadie.Api.Services/SubsonicService.cs:1769-1772 | exactly the tracks whose public id was submitted |
| Subsonic.MaxListNumber | Roadie.Api.Services/SubsonicService.cs:1774 | the highest list number of the playlist (0 for none) |
| Subsonic.Appended | Roadie.Api.Services/SubsonicService.cs:1775-1787 | the existing entries are kept first |
| Subsonic.AppendedSpec | Roadie.Api.Services/SubsonicService.cs:1766-1788 | new entries belong to the playlist, are numbered consecutively after the old maximum, are for tracks not already on it and are not repeated; every submitted track ends up on the playlist |
| Subsonic.AppendedNew | Roadie.Api.Services/SubsonicService.cs:1775-1787 | every new entry belongs to the playlist and is numbered consecutively after the old maximum |
| Subsonic.AppendedDistinct | Roadie.Api.Services/SubsonicService.cs:1775-1787 | no new entry is for a track already on the playlist or added earlier |
| Subsonic.AppendedCovers | Roadie.Api.Services/SubsonicService.cs:1775-1787 | every submitted track is on the playlist afterwards |
| Subsonic.AppendSubmitted | Roadie.Api.Services/SubsonicService.cs:1774-1787 | the loop appends exactly as `Appended` says, numbering after the playlist's highest list number |
| Subsonic.SubsonicStore.UpdatePlaylist | Roadie.Api.Services/SubsonicService.cs:1745-1815 | the guard's answer changes nothing; songs to remove throw NotImplemented and save nothing; otherwise a null name or visibility keeps the old one, the playlist is stamped, and new tracks are appended after the highest number |
| Subsonic.SubsonicStore.DeletePlaylist | Roadie.Api.Services/SubsonicService.cs:357-385 | the guard's answer changes nothing; otherwise only that playlist is removed |
| Subsonic.SubsonicStore.SavePlayQueue | Roadie.Api.Services/SubsonicService.cs:1479-1520 | the user's queue is replaced by one entry per listed track, and other users' entries are kept |
| Subsonic.SubsonicStore.AddChatMessage | Roadie.Api.Services/SubsonicService.cs:79-101 | an empty or missing message is refused as a missing parameter; otherwise it is appended |
| Subsonic.OtherUsersQues | Roadie.Api.Services/SubsonicService.cs:1483-1487 | exactly the queue entries of other users |
| Subsonic.QueEntries | Roadie.Api.Services/SubsonicService.cs:1488-1508 | one entry per listed track |
| Subsonic.QueEntriesSpec | Roadie.Api.Services/SubsonicService.cs:1488-1508 | the entries are numbered 1..n in list order; an entry is current exactly when it matches `current`, only a current entry carries the position, and with distinct tracks at most one is current |
| Subsonic.KeepOtherUsers | Roadie.Api.Services/SubsonicService.cs:1483-1487 | the loop keeps exactly the other users' entries, in order |
| Subsonic.BuildQue | Roadie.Api.Services/SubsonicService.cs:1488-1508 | the loop with its `short` counter builds exactly the entries `QueEntries` describes |
| Subsonic.FirstTarget | Roadie.Api.Services/SubsonicService.cs:1615-1650 | dispatch is on the first id present: track, then release, then artist |
| Subsonic.SetRating | Roadie.Api.Services/SubsonicService.cs:1606-1651 | an unknown user is not authorised; otherwise Ok exactly when the first named target is rated, and not found in every other case |
| Subsonic.FirstStarFailure | Roadie.Api.Services/SubsonicService.cs:1703-1716 | no failure exactly when every given release is starred; otherwise the error code of the first id whose star fails, all earlier stars having succeeded |
| Subsonic.ToggleAlbumStarsAsWritten | Roadie.Api.Services/SubsonicService.cs:1703-1732 | as written, the album branch never answers Ok |
| Subsonic.AlbumStarReportedNotFound | Roadie.Api.Services/SubsonicService.cs:1703-1732 | starring one known album succeeds and is still answered not found |
| Subsonic.StarInOrder | Roadie.Api.Services/SubsonicService.cs:1702-1730 | the star loop answers the first failure's code, and Ok when every star succeeds |
| Subsonic.ToggleStar | Roadie.Api.Services/SubsonicService.cs:1657-1732 | an unknown user is not authorised; the first named target decides Ok or not found; otherwise the album ids, else the artist ids, are starred in order, the first failure is answered with its code, and full success is Ok; with neither list the answer is not found |
| Subsonic.ToggleArtistStarsAsWritten | Roadie.Api.Services/SubsonicService.cs:1717-1731 | as written, the artist branch never answers Ok: the first result that is not a not-found one is answered by its error code, or throws when it has none; all not-found gives not found |
| Subsonic.ArtistStarThrows | Roadie.Api.Services/SubsonicService.cs:1717-1729 | starring one artist successfully throws instead of answering Ok |
| Subsonic.FolderById | Roadie.Api.Services/SubsonicService.cs:1940-1947 | only folders 1 and 2 exist, and a found folder has the id asked for |
| Subsonic.ArtistsFolder | Roadie.Api.Services/SubsonicService.cs:1830 | with no folder given, the folder is 2 "Music" |
| Subsonic.ArtistIndexes | Roadie.Api.Services/SubsonicService.cs:1846 | grouping fails exactly when some artist name is empty, with `ArgumentOutOfRangeException` from `Substring(0, 1)` |
| Subsonic.AddToIndexWellGrouped | Roadie.Api.Services/SubsonicService.cs:1914 | adding a name keeps one group per character and every name under its own character |
| Subsonic.AddToIndexListed | Roadie.Api.Services/SubsonicService.cs:1914 | adding a name lists exactly that one name more |
| Subsonic.GroupByFirstCharSpec | Roadie.Api.Services/SubsonicService.cs:1914 | one group per first character, each name under its own character, and the groups hold exactly the given names |
| Subsonic.GroupByFirstCharOrder | Roadie.Api.Services/SubsonicService.cs:1914 | `GroupBy` order: the groups follow the first appearance of their character, and each lists exactly the names starting with it, in input order with repeats |
| Subsonic.AddToIndexInOrder | Roadie.Api.Services/SubsonicService.cs:1914 | adding a name to the groups of a list gives the groups of the list with that name appended |
| Subsonic.AddKnownCharInOrder | Roadie.Api.Services/SubsonicService.cs:1914 | a name whose character has a group joins the end of that group, and nothing else changes |
| Subsonic.AddNewCharInOrder | Roadie.Api.Services/SubsonicService.cs:1914 | a name with a new character opens a last group holding just that name |

## Left out

- HTTP transport, REST clients, timeouts and logging are not modelled. Each Discogs search response, and the detail answer for the chosen hit, is an input.
- Entity Framework queries, `Include`, `SaveChangesAsync` and SQL collation are not modelled. Tables are in-memory sequences and maps, and `Contains` is ordinal substring search.
- The dynamic `OrderBy(string)` of the list services is not modelled. `GenreService.List` returns the ORDER BY text it builds, but takes its page of rows in table order. The `RandomSortId` ordering of random mode is left out too.
- The `lock` blocks of the dictionary cache are not modelled, since they only serialise concurrent callers. Every operation is atomic.
- Randomness, clocks and fresh GUIDs are parameters: `Shuffle`'s draw function, `now` and `newStamp`. Stopwatch operation times are always 0.
- `Cache.DictionaryCacheManager.Get`: one cache holds values of one type `V`. The code's cast `(T)` throws `InvalidCastException` when a key holds a value of another type, and that case is not modelled.
- `Cache.DictionaryCacheManager.GetOrAdd`: for a value type, a read of `default` is not null. The model treats every absent or null entry as a miss, which is what happens for reference types.
- `Paging.OkMessage`: the literal text of the OK message is not part of this model. Only its identity matters.
- `Paging.TotalPages`: a zero limit gives no page count. The source's floating-point division gives infinity or NaN, and the cast to `int` gives an undefined result.
- `Discogs.PerformReleaseSearch`: the release date is kept as the raw text rather than parsed, and track durations are kept as given rather than converted. The year and position fields are treated as integer keys.
- `Discogs.Distinct` compares names exactly, as the code does. It does not ignore case.
- `Discogs.BuildSearchRequest`: a null query makes `Trim` throw. The query is a non-null string here, so that exception is not modelled.
- `Sorting.SortBy`: stability is proved only for the head of the sorted sequence (`Sorting.SortByHead`), which is what `OrderBy(year).First()` uses. Stability of the whole order is not stated.
- Upper-casing and case-insensitive comparison (`Text.ToUpper`, `Text.ReplaceIgnoreCase`) are ASCII only. `Text.Trim` recognises a fixed set of whitespace characters, not every Unicode one.
- `PlaylistFactory.AddTracksToPlaylist`: the new rows share one creation date. Rows with equal creation dates are numbered in table order here; in the code the database sorts them, and their order is unspecified. The same holds for `PlaylistFactory.ReorderPlaylist` and `PlaylistFactory.NumberingOrder`.
- `PlaylistFactory.AddTracksToPlaylist`: a null playlist makes the code throw `NullReferenceException` when it reads the playlist id. The playlist is a non-null object here, so that exception is not modelled.
- `ReleaseService.NormalizeListRequest`: the collection, favourite, rating and artist filters of `List` are not modelled. The alphanumeric form of the filter (`ToAlphanumericName`) is a parameter.
- `ReleaseService.UpdateRelease`: only title, rating, alternate names, tags, URLs, artist and genres are modelled.
  - Folder moves, image handling, the title-rename check and cache clearing are left out. The `fault` parameter says where an exception from them is thrown: while resolving the artist folder (before any edit), while replacing the thumbnail (after the field copies and the artist switch, before the genres and the stamp), or while saving and after (every edit made). It is caught and turns the outcome into a failure.
  - Edits made on the tracked entity before the fault are kept in the model's state. Whether a later save would persist them is not modelled.
- `UserService.UserStore.UpdateProfile`: password hashing, FTP password encryption, the avatar and cache clearing are left out. The identity store's answer to a reset is the `resetSucceeds` parameter.
- `UserService.PlayedSum`: the sum is over unbounded integers. LINQ's `Sum` over `int?` is checked and throws `OverflowException` beyond the `int` range, and that exception is not modelled.
- `UserService.Statistics`: the user's tables are given as inputs. How `List` and `UserByIdAction` query them is not modelled.
- `Subsonic.SubsonicStore.SavePlayQueue`: the track list comes from `TrackService.List`, which is not part of this model, and is given as input.
- `Subsonic.MaxListNumber`: the code takes `Max` over the playlist's loaded tracks. `Max` of an empty list throws, while the model answers 0 because it has no loaded/not-loaded distinction. Loading the playlist (`GetPlaylist`) is not part of this model.
- `Subsonic.Appended`: each submitted track is checked against the entries so far, new ones included. The code checks only the tracks loaded before the loop. The two agree because the submitted tracks come from the track table, whose keys are unique.
- `Subsonic.ToggleStar`: a failed album or artist star carries an error code here. In the code, a failed star without a code makes `ErrorCode.Value` throw, and that case is not modelled. The result class of the star helpers is not part of this model; `Subsonic.StarResult` holds the three fields the artist branch reads.
- `Subsonic.SanitizeQuery`: a null query makes the search throw in the code. The query is a non-null string here, so that exception is not modelled.
- `Subsonic.ArtistsFolder`: only the folder lookup is modelled. The code's "Collections" branch compares the folder by reference with a freshly built object, so it is never taken. Artists are always indexed the "Music" way.
- Subsonic authentication (MD5 tokens), responses, the other API actions and `CreatePlaylist` are left out.
- Artist and release lookup engines, image helpers, MemoryCacheManager and token services are not part of this model.

## Findings

| source | as written | input that shows it | evidently intended | confidence | as-written member | corrected member |
|---|---|---|---|---|---|---|
| Roadie.Api.Services/SubsonicService.cs:1703-1732 | in `ToggleStar`, when every album id in `albumIds` is starred, the loop ends and the routine falls through to the not-found answer | a known user, no track/release/artist id, `albumIds` = ["1"] with release 1 starred successfully | the answer is Ok when every album was starred | high (not executed) | Subsonic.ToggleAlbumStarsAsWritten, Subsonic.AlbumStarReportedNotFound | Subsonic.ToggleStar |
| Roadie.Api.Services/SubsonicService.cs:366 | the not-found message of `DeletePlaylist` (and of `UpdatePlaylist`) reads `request.TrackId.Value` | a playlist request with an unknown playlist id and no track id | the not-found answer, naming the playlist id | high (not executed) | Subsonic.PlaylistNotFoundAsWritten, Subsonic.PlaylistNotFoundThrows | Subsonic.PlaylistGuard |
| Roadie.Api.Services/SubsonicService.cs:1717-1731 | in `ToggleStar`, the `artistIds` branch stars each id with `ToggleReleaseStar` and answers with `ErrorCode.Value` whenever the result is not a not-found one | a known user, no track/release/artist id, no album ids, `artistIds` = ["1"] whose star succeeds (a success carries no error code) | each artist is starred with `ToggleArtistStar`; the first failure is answered with its code, and Ok when every star succeeded | medium (not executed) | Subsonic.ToggleArtistStarsAsWritten, Subsonic.ArtistStarThrows | Subsonic.ToggleStar |
