/**
 * The Discogs metadata provider: building the search request, and mapping the
 * search and detail responses into artist, label and release search results.
 * Every HTTP exchange is an input: the search response as a record, and the
 * follow-up detail request as a function from the chosen hit's id to its answer.
 */
module Discogs {
  import opened Wrappers
  import opened Numeric
  import Text
  import Sorting

  /** The provider is switched off unconditionally. */
  function IsEnabled(): (r: bool)
    ensures !r
  {
    false
  }

  // ---------------------------------------------------------------- requests

  datatype ParamValue = IntValue(n: int) | TextValue(s: Option<string>)
  datatype Parameter = Parameter(name: string, value: ParamValue)
  /** The consumer key and secret sent with every request. */
  datatype ApiKey = ApiKey(key: Option<string>, secret: Option<string>)

  /** `'text'`: the text wrapped in single quotes. */
  function Quoted(s: string): string {
    "'" + s + "'"
  }

  /**
   * `BuildSearchRequest`: `page=1` and `per_page` only for a positive count, then
   * `type`, the trimmed and quoted query, the trimmed and quoted artist when one is
   * given, and finally the key and secret.
   */
  method BuildSearchRequest(query: string, resultsCount: int, entityType: string, artist: Option<string>, apiKey: ApiKey)
    returns (r: seq<Parameter>)
    ensures var o := if resultsCount > 0 then 2 else 0;
      |r| == o + 4 + (if artist.Some? && artist.value != "" then 1 else 0)
    ensures resultsCount > 0 ==>
      r[0] == Parameter("page", IntValue(1)) && r[1] == Parameter("per_page", IntValue(resultsCount))
    ensures var o := if resultsCount > 0 then 2 else 0;
      r[o] == Parameter("type", TextValue(Some(entityType)))
      && r[o + 1] == Parameter("q", TextValue(Some(Quoted(Text.Trim(query)))))
    ensures artist.Some? && artist.value != "" ==>
      r[|r| - 3] == Parameter("artist", TextValue(Some(Quoted(Text.Trim(artist.value)))))
    ensures r[|r| - 2] == Parameter("key", TextValue(apiKey.key))
      && r[|r| - 1] == Parameter("secret", TextValue(apiKey.secret))
  {
    var search := [Parameter("type", TextValue(Some(entityType))), Parameter("q", TextValue(Some(Quoted(Text.Trim(query)))))];
    var secrets := [Parameter("key", TextValue(apiKey.key)), Parameter("secret", TextValue(apiKey.secret))];
    var byArtist: seq<Parameter> := [];
    if artist.Some? && artist.value != "" {
      byArtist := [Parameter("artist", TextValue(Some(Quoted(Text.Trim(artist.value)))))];
    }
    var tail := search + byArtist + secrets;
    assert tail[0] == search[0] && tail[1] == search[1];
    assert tail[|tail| - 2] == secrets[0] && tail[|tail| - 1] == secrets[1];
    if resultsCount > 0 {
      r := [Parameter("page", IntValue(1)), Parameter("per_page", IntValue(resultsCount))] + tail;
      assert r[2] == tail[0] && r[3] == tail[1];
    } else {
      r := tail;
    }
  }

  // --------------------------------------------------------------- responses

  datatype Image = Image(kind: Option<string>, uri: Option<string>)
  /** One hit of a database search. */
  datatype Hit = Hit(id: int, kind: Option<string>, year: int)
  datatype SearchData = SearchData(results: Option<seq<Hit>>)
  /** A search response: transport error or not, 401 or not, and the parsed body. */
  datatype SearchResponse = SearchResponse(isError: bool, unauthorized: bool, data: Option<SearchData>)

  datatype ArtistDetail = ArtistDetail(id: int, name: Option<string>, profile: Option<string>, uri: Option<string>,
                                       urls: Option<seq<Option<string>>>, images: Option<seq<Image>>,
                                       nameVariations: Option<seq<string>>)
  datatype LabelDetail = LabelDetail(id: int, name: Option<string>, profile: Option<string>, uri: Option<string>,
                                     urls: Option<seq<Option<string>>>, images: Option<seq<Image>>)
  datatype LabelRef = LabelRef(id: int, name: Option<string>, catalogNumber: Option<string>)
  /** A track as listed; `position` is its sort key. */
  datatype ListedTrack = ListedTrack(position: int, title: Option<string>, duration: Option<string>, kind: Option<string>)
  datatype Identifier = Identifier(kind: Option<string>, value: Option<string>)
  datatype ReleaseDetail = ReleaseDetail(id: int, uri: Option<string>, released: Option<string>, notes: Option<string>,
                                         images: Option<seq<Image>>, genres: Option<seq<string>>,
                                         labels: Option<seq<LabelRef>>, tracklist: Option<seq<ListedTrack>>,
                                         identifiers: Option<seq<Identifier>>)

  /** Why a search body threw. Every such exception is caught and logged. */
  datatype Fault = Unauthorized | RequestError | NullReference | NoImageWithUri

  // ----------------------------------------------------------------- results

  datatype ArtistSearchResult = ArtistSearchResult(artistName: Option<string>, discogsId: int, artistType: Option<string>,
                                                   profile: Option<string>, alternateNames: seq<string>,
                                                   thumbnailUrl: Option<string>, urls: seq<Option<string>>,
                                                   imageUrls: seq<Option<string>>)
  datatype LabelSearchResult = LabelSearchResult(labelName: Option<string>, discogsId: int, profile: Option<string>,
                                                 alternateNames: seq<string>, imageUrl: Option<string>,
                                                 urls: seq<Option<string>>, imageUrls: seq<Option<string>>)
  datatype ReleaseLabel = ReleaseLabel(catalogNumber: Option<string>, labelName: Option<string>, discogsId: int)
  datatype TrackSearchResult = TrackSearchResult(trackNumber: Int16, title: Option<string>, duration: Option<string>,
                                                 trackType: Option<string>)
  datatype ReleaseMedia = ReleaseMedia(mediaNumber: Int16, trackCount: Int16, tracks: seq<TrackSearchResult>)
  datatype ReleaseSearchResult = ReleaseSearchResult(discogsId: int, releaseType: Option<string>, released: Option<string>,
                                                     profile: Option<string>, thumbnailUrl: Option<string>,
                                                     urls: seq<Option<string>>, imageUrls: seq<Option<string>>,
                                                     genres: Option<seq<string>>, labels: Option<seq<ReleaseLabel>>,
                                                     media: Option<seq<ReleaseMedia>>, tags: Option<seq<string>>)

  /**
   * What every `Perform*Search` returns: success exactly when a result was built,
   * and always a one-element array holding that result or null.
   */
  datatype SearchOutcome<T> = SearchOutcome(isSuccess: bool, data: seq<Option<T>>)

  /** The `catch`-all around a search body: any fault becomes a failed outcome. */
  function Outcome<T>(body: Result<Option<T>, Fault>): (r: SearchOutcome<T>)
    ensures |r.data| == 1 && (r.isSuccess <==> r.data[0].Some?)
    ensures r.isSuccess <==> body.Success? && body.value.Some?
    ensures r.isSuccess ==> r.data[0] == body.value
  {
    match body
    case Success(d) => SearchOutcome(d.Some?, [d])
    case Failure(_) => SearchOutcome(false, [None])
  }

  // ------------------------------------------------------------------ images

  predicate IsPrimary(img: Image) {
    img.kind == Some("primary")
  }

  predicate HasUri(img: Image) {
    img.uri.Some? && img.uri.value != ""
  }

  /** The uris of the images that are not of type "primary", in order. */
  function ImageUrls(images: seq<Image>): (r: seq<Option<string>>)
    ensures |r| <= |images|
    ensures forall u :: u in r <==> exists img :: img in images && !IsPrimary(img) && img.uri == u
  {
    if |images| == 0 then []
    else
      var rest := ImageUrls(images[1..]);
      assert forall img :: img in images <==> img == images[0] || img in images[1..];
      if IsPrimary(images[0]) then rest else [images[0].uri] + rest
  }

  /**
   * `Where(type != "primary").Select(uri)` works image by image: a list split in
   * two yields the urls of the first part followed by those of the second, and a
   * single image yields its uri exactly when it is not primary. Together these fix
   * the order and the multiplicity of the urls.
   */
  lemma {:induction false} ImageUrlsInOrder(a: seq<Image>, b: seq<Image>)
    ensures ImageUrls(a + b) == ImageUrls(a) + ImageUrls(b)
    ensures |a| == 1 ==> ImageUrls(a) == if IsPrimary(a[0]) then [] else [a[0].uri]
  {
    if |a| > 0 {
      assert (a + b)[0] == a[0] && (a + b)[1..] == a[1..] + b;
      ImageUrlsInOrder(a[1..], b);
    } else {
      assert a + b == b;
    }
  }

  /** Index of the first image satisfying `p`, or `|images|` when none does. */
  function FirstIndex(images: seq<Image>, p: Image -> bool): (i: nat)
    ensures i <= |images|
    ensures forall j :: 0 <= j < i ==> !p(images[j])
    ensures i < |images| ==> p(images[i])
  {
    if |images| == 0 then 0
    else if p(images[0]) then 0
    else 1 + FirstIndex(images[1..], p)
  }

  /**
   * The thumbnail: the uri of the first "primary" image when that uri is non-empty,
   * otherwise the uri of the first image that has a non-empty uri. When no image has
   * one, LINQ `First` throws.
   */
  function Thumbnail(images: seq<Image>): (r: Result<Option<string>, Fault>)
    ensures var p := FirstIndex(images, IsPrimary);
      p < |images| && HasUri(images[p]) ==> r == Success(images[p].uri)
    ensures var p := FirstIndex(images, IsPrimary);
      !(p < |images| && HasUri(images[p])) ==>
        (r.Failure? <==> forall j :: 0 <= j < |images| ==> !HasUri(images[j]))
    ensures r.Success? ==>
      (r.value.Some? && r.value.value != "" && exists j :: 0 <= j < |images| && images[j].uri == r.value)
  {
    var p := FirstIndex(images, IsPrimary);
    if p < |images| && HasUri(images[p]) then Success(images[p].uri)
    else
      var k := FirstIndex(images, HasUri);
      if k < |images| then Success(images[k].uri) else Failure(NoImageWithUri)
  }

  /** The image list and thumbnail of an entity: nothing for a null list, else both or the fault. */
  function ImagesAndThumbnail(images: Option<seq<Image>>): (r: Result<(seq<Option<string>>, Option<string>), Fault>)
    ensures images.None? ==> r == Success(([], None))
    ensures images.Some? ==> (r.Success? <==> Thumbnail(images.value).Success?)
    ensures images.Some? && r.Success? ==> r.value == (ImageUrls(images.value), Thumbnail(images.value).value)
  {
    match images
    case None => Success(([], None))
    case Some(imgs) =>
      match Thumbnail(imgs)
      case Failure(f) => Failure(f)
      case Success(t) => Success((ImageUrls(imgs), t))
  }

  /** The entity's own uri followed by its link list, in order. */
  function Urls(uri: Option<string>, urls: Option<seq<Option<string>>>): (r: seq<Option<string>>)
    ensures |r| >= 1 && r[0] == uri
    ensures urls.Some? ==> r[1..] == urls.value
    ensures urls.None? ==> |r| == 1
  {
    [uri] + urls.GetOr([])
  }

  // ---------------------------------------------------------------- distinct

  ghost predicate NoDuplicates(s: seq<string>) {
    forall i, j :: 0 <= i < j < |s| ==> s[i] != s[j]
  }

  /** LINQ `Distinct`: the first occurrence of each element, in order (exact comparison). */
  function Distinct(s: seq<string>): (r: seq<string>)
    ensures forall x :: x in r <==> x in s
    ensures NoDuplicates(r)
    ensures |r| <= |s|
  {
    if |s| == 0 then []
    else
      var init := Distinct(s[..|s| - 1]);
      assert forall x :: x in s <==> x in s[..|s| - 1] || x == s[|s| - 1];
      if s[|s| - 1] in init then init else init + [s[|s| - 1]]
  }

  /** The index of the first occurrence of `x`. */
  function IndexOf(s: seq<string>, x: string): (i: nat)
    requires x in s
    ensures i < |s| && s[i] == x
    ensures forall j :: 0 <= j < i ==> s[j] != x
  {
    if s[0] == x then 0 else 1 + IndexOf(s[1..], x)
  }

  /** Appending an element does not move the first occurrence of an element already present. */
  lemma IndexOfSnoc(s: seq<string>, x: string, y: string)
    requires y in s
    ensures IndexOf(s + [x], y) == IndexOf(s, y)
  {
    var a, b := IndexOf(s + [x], y), IndexOf(s, y);
    assert (s + [x])[b] == y;
  }

  /** `Distinct` keeps the first occurrences in the order in which they occur in the input. */
  lemma {:induction false} DistinctFirstOccurrenceOrder(s: seq<string>)
    ensures FirstOccurrenceOrder(s, Distinct(s))
  {
    if |s| > 0 {
      var init, x := s[..|s| - 1], s[|s| - 1];
      assert s == init + [x];
      DistinctFirstOccurrenceOrder(init);
      DistinctSnocOrder(init, x);
    }
  }

  /** The names of `r`, all from `s`, appear in `r` in the order of their first occurrence in `s`. */
  ghost predicate FirstOccurrenceOrder(s: seq<string>, r: seq<string>) {
    (forall x :: x in r ==> x in s)
    && forall i, j :: 0 <= i < j < |r| ==> IndexOf(s, r[i]) < IndexOf(s, r[j])
  }

  /** The induction step of `DistinctFirstOccurrenceOrder`: one more name at the end. */
  lemma DistinctSnocOrder(init: seq<string>, x: string)
    requires FirstOccurrenceOrder(init, Distinct(init))
    ensures FirstOccurrenceOrder(init + [x], Distinct(init + [x]))
  {
    var s, d := init + [x], Distinct(init);
    assert s[..|s| - 1] == init && s[|s| - 1] == x;
    if x in init {
      assert Distinct(s) == d;
      OrderKeptBySnoc(init, x, d);
    } else {
      assert Distinct(s) == d + [x];
      OrderExtendedBySnoc(init, x, d);
    }
  }

  /** Appending a name to the input keeps the order of names already in it. */
  lemma OrderKeptBySnoc(init: seq<string>, x: string, r: seq<string>)
    requires FirstOccurrenceOrder(init, r)
    ensures FirstOccurrenceOrder(init + [x], r)
  {
    var s := init + [x];
    forall i, j | 0 <= i < j < |r|
      ensures IndexOf(s, r[i]) < IndexOf(s, r[j])
    {
      IndexOfSnoc(init, x, r[i]);
      IndexOfSnoc(init, x, r[j]);
    }
  }

  /** A name new to the input comes after every earlier first occurrence. */
  lemma OrderExtendedBySnoc(init: seq<string>, x: string, r: seq<string>)
    requires FirstOccurrenceOrder(init, r) && x !in init
    ensures FirstOccurrenceOrder(init + [x], r + [x])
  {
    var s, r' := init + [x], r + [x];
    assert IndexOf(s, x) == |init|;
    forall i, j | 0 <= i < j < |r'|
      ensures IndexOf(s, r'[i]) < IndexOf(s, r'[j])
    {
      assert r'[i] == r[i];
      IndexOfSnoc(init, x, r[i]);
      if j < |r| {
        assert r'[j] == r[j];
        IndexOfSnoc(init, x, r[j]);
      }
    }
  }

  // ---------------------------------------------------------------- searches

  /** The hit a name search continues with: the first one. */
  function FirstHit(response: SearchResponse): (r: Result<Option<Hit>, Fault>)
    ensures r.Failure? <==> response.isError || response.data.None?
    ensures r.Success? && r.value.Some? <==>
      (!response.isError && response.data.Some?
       && response.data.value.results.Some? && |response.data.value.results.value| > 0)
    ensures r.Success? && r.value.Some? ==> r.value.value == response.data.value.results.value[0]
  {
    if response.isError then Failure(if response.unauthorized then Unauthorized else RequestError)
    else if response.data.None? then Failure(NullReference)
    else
      var results := response.data.value.results;
      if results.Some? && |results.value| > 0 then Success(Some(results.value[0])) else Success(None)
  }

  /**
   * `PerformArtistSearch`: searches for one artist, takes the first hit and maps
   * its detail. Any fault, including a non-empty image list without a usable uri,
   * turns into a failed outcome.
   */
  method PerformArtistSearch(query: string, resultsCount: int, apiKey: ApiKey,
                             response: SearchResponse, fetch: int -> Option<ArtistDetail>)
    returns (request: seq<Parameter>, r: SearchOutcome<ArtistSearchResult>)
    ensures |request| >= 6 && request[1] == Parameter("per_page", IntValue(1))
    ensures request[2] == Parameter("type", TextValue(Some("artist")))
    ensures |r.data| == 1 && (r.isSuccess <==> r.data[0].Some?)
    ensures response.isError ==> !r.isSuccess
    ensures r.isSuccess <==>
      FirstHit(response).Success? && FirstHit(response).value.Some?
      && fetch(FirstHit(response).value.value.id).Some?
      && ImagesAndThumbnail(fetch(FirstHit(response).value.value.id).value.images).Success?
    ensures r.isSuccess ==>
      var hit := FirstHit(response).value.value;
      var a := fetch(hit.id).value;
      var d := r.data[0].value;
      d.artistName == a.name && d.discogsId == a.id && d.artistType == hit.kind && d.profile == a.profile
      && d.urls == Urls(a.uri, a.urls)
      && d.alternateNames == Distinct(a.nameVariations.GetOr([]))
      && (forall x :: x in d.alternateNames <==> x in a.nameVariations.GetOr([]))
      && NoDuplicates(d.alternateNames)
      && (a.images.None? ==> d.thumbnailUrl.None? && d.imageUrls == [])
      && (a.images.Some? ==>
            d.imageUrls == ImageUrls(a.images.value) && Success(d.thumbnailUrl) == Thumbnail(a.images.value))
  {
    request := BuildSearchRequest(query, 1, "artist", None, apiKey);
    var body: Result<Option<ArtistSearchResult>, Fault> := Success(None);
    var hit := FirstHit(response);
    if hit.Failure? {
      body := Failure(hit.error);
    } else if hit.value.Some? && fetch(hit.value.value.id).Some? {
      var a := fetch(hit.value.value.id).value;
      var images := ImagesAndThumbnail(a.images);
      if images.Failure? {
        body := Failure(images.error);
      } else {
        body := Success(Some(ArtistSearchResult(a.name, a.id, hit.value.value.kind, a.profile,
                                                Distinct(a.nameVariations.GetOr([])), images.value.1,
                                                Urls(a.uri, a.urls), images.value.0)));
      }
    }
    r := Outcome(body);
  }

  /** `PerformLabelSearch`: as the artist search, with no alternate names ever collected. */
  method PerformLabelSearch(labelName: string, resultsCount: int, apiKey: ApiKey,
                            response: SearchResponse, fetch: int -> Option<LabelDetail>)
    returns (request: seq<Parameter>, r: SearchOutcome<LabelSearchResult>)
    ensures |request| >= 6 && request[1] == Parameter("per_page", IntValue(1))
    ensures request[2] == Parameter("type", TextValue(Some("label")))
    ensures |r.data| == 1 && (r.isSuccess <==> r.data[0].Some?)
    ensures response.isError ==> !r.isSuccess
    ensures r.isSuccess <==>
      FirstHit(response).Success? && FirstHit(response).value.Some?
      && fetch(FirstHit(response).value.value.id).Some?
      && ImagesAndThumbnail(fetch(FirstHit(response).value.value.id).value.images).Success?
    ensures r.isSuccess ==>
      var l := fetch(FirstHit(response).value.value.id).value;
      var d := r.data[0].value;
      d.labelName == l.name && d.discogsId == l.id && d.profile == l.profile && d.alternateNames == []
      && d.urls == Urls(l.uri, l.urls)
      && (l.images.None? ==> d.imageUrl.None? && d.imageUrls == [])
      && (l.images.Some? ==>
            d.imageUrls == ImageUrls(l.images.value) && Success(d.imageUrl) == Thumbnail(l.images.value))
  {
    request := BuildSearchRequest(labelName, 1, "label", None, apiKey);
    var body: Result<Option<LabelSearchResult>, Fault> := Success(None);
    var hit := FirstHit(response);
    if hit.Failure? {
      body := Failure(hit.error);
    } else if hit.value.Some? && fetch(hit.value.value.id).Some? {
      var l := fetch(hit.value.value.id).value;
      var images := ImagesAndThumbnail(l.images);
      if images.Failure? {
        body := Failure(images.error);
      } else {
        body := Success(Some(LabelSearchResult(l.name, l.id, l.profile, [], images.value.1,
                                               Urls(l.uri, l.urls), images.value.0)));
      }
    }
    r := Outcome(body);
  }

  function YearOf(h: Hit): int {
    h.year
  }

  function PositionOf(t: ListedTrack): int {
    t.position
  }

  /**
   * LINQ `OrderBy(year).First()`: a hit with the smallest year, and since the
   * ordering is stable, the first such hit in the list.
   */
  function EarliestHit(hits: seq<Hit>): (h: Hit)
    requires |hits| > 0
    ensures h in hits
    ensures forall x :: x in hits ==> h.year <= x.year
    ensures exists i :: 0 <= i < |hits| && hits[i] == h && forall j :: 0 <= j < i ==> hits[j].year > h.year
  {
    var s := Sorting.SortBy(hits, YearOf);
    Sorting.SortByHead(hits, YearOf);
    var m := Sorting.FirstMinIndex(hits, YearOf);
    assert s[0] == hits[m];
    forall x | x in hits
      ensures hits[m].year <= x.year
    {
      var j :| 0 <= j < |hits| && hits[j] == x;
      assert YearOf(hits[m]) <= YearOf(hits[j]);
    }
    forall j | 0 <= j < m
      ensures hits[j].year > hits[m].year
    {
      assert YearOf(hits[j]) > YearOf(hits[m]);
    }
    s[0]
  }

  /** The hit a release search continues with, or the fault its selection throws. */
  function ReleaseHit(response: SearchResponse): (r: Result<Option<Hit>, Fault>)
    ensures r.Failure? <==> response.isError || (response.data.Some? && response.data.value.results.None?)
    ensures r.Success? && r.value.Some? <==>
      (!response.isError && response.data.Some? && response.data.value.results.Some?
       && |response.data.value.results.value| > 0)
    ensures r.Success? && r.value.Some? ==> r.value.value == EarliestHit(response.data.value.results.value)
    ensures r.Success? && r.value.Some? ==>
      (response.data.Some? && response.data.value.results.Some?
       && r.value.value in response.data.value.results.value
       && forall x :: x in response.data.value.results.value ==> r.value.value.year <= x.year)
  {
    if response.isError then Failure(if response.unauthorized then Unauthorized else RequestError)
    else if response.data.None? then Success(None)
    else if response.data.value.results.None? then Failure(NullReference)
    else if |response.data.value.results.value| == 0 then Success(None)
    else Success(Some(EarliestHit(response.data.value.results.value)))
  }

  /** `i` is the first identifier of type "Barcode". */
  predicate FirstBarcodeAt(ids: seq<Identifier>, i: int) {
    0 <= i < |ids| && ids[i].kind == Some("Barcode") && forall j :: 0 <= j < i ==> ids[j].kind != Some("Barcode")
  }

  /** The tag list a release's identifiers yield: a non-empty first "Barcode" value becomes `barcode:<value>`. */
  function BarcodeTags(identifiers: Option<seq<Identifier>>): (r: Option<seq<string>>)
    ensures r.Some? <==>
      (identifiers.Some? &&
       exists i :: FirstBarcodeAt(identifiers.value, i)
         && identifiers.value[i].value.Some? && identifiers.value[i].value.value != "")
    ensures forall i :: identifiers.Some? && FirstBarcodeAt(identifiers.value, i)
                        && identifiers.value[i].value.Some? && identifiers.value[i].value.value != "" ==>
      r == Some(["barcode:" + identifiers.value[i].value.value])
  {
    if identifiers.None? then None
    else
      var ids := identifiers.value;
      var i := FirstBarcode(ids);
      assert forall i' :: FirstBarcodeAt(ids, i') ==> i' == i;
      if i < |ids| && ids[i].value.Some? && ids[i].value.value != "" then
        Some(["barcode:" + ids[i].value.value])
      else
        None
  }

  function FirstBarcode(ids: seq<Identifier>): (i: nat)
    ensures i <= |ids|
    ensures forall j :: 0 <= j < i ==> ids[j].kind != Some("Barcode")
    ensures i < |ids| ==> ids[i].kind == Some("Barcode")
  {
    if |ids| == 0 then 0
    else if ids[0].kind == Some("Barcode") then 0
    else 1 + FirstBarcode(ids[1..])
  }

  /**
   * The single media of a release: tracks sorted by position, numbered with a
   * `short` counter from 1, and the track count cast to `short`.
   */
  method NumberTracks(tracklist: seq<ListedTrack>) returns (media: ReleaseMedia)
    ensures media.mediaNumber == 1
    ensures media.trackCount == Wrap16(|tracklist|)
    ensures |media.tracks| == |tracklist|
    ensures var sorted := Sorting.SortBy(tracklist, PositionOf);
      forall i :: 0 <= i < |media.tracks| ==>
        media.tracks[i] == TrackSearchResult(Wrap16(i + 1), sorted[i].title, sorted[i].duration, sorted[i].kind)
  {
    var sorted := Sorting.SortBy(tracklist, PositionOf);
    Sorting.SortByPermutation(tracklist, PositionOf);
    var tracks: seq<TrackSearchResult> := [];
    var looper: Int16 := 0;
    for i := 0 to |sorted|
      invariant |tracks| == i
      invariant looper == Wrap16(i)
      invariant forall j :: 0 <= j < i ==>
        tracks[j] == TrackSearchResult(Wrap16(j + 1), sorted[j].title, sorted[j].duration, sorted[j].kind)
    {
      looper := Wrap16(looper + 1);
      assert looper == Wrap16(i + 1) by { WrapStep(i); }
      tracks := tracks + [TrackSearchResult(looper, sorted[i].title, sorted[i].duration, sorted[i].kind)];
    }
    media := ReleaseMedia(1, Wrap16(|tracks|), tracks);
  }

  function LabelOf(l: LabelRef): ReleaseLabel {
    ReleaseLabel(l.catalogNumber, l.name, l.id)
  }

  function MapLabels(labels: seq<LabelRef>): (r: seq<ReleaseLabel>)
    ensures |r| == |labels| && forall i :: 0 <= i < |labels| ==> r[i] == LabelOf(labels[i])
  {
    if |labels| == 0 then [] else [LabelOf(labels[0])] + MapLabels(labels[1..])
  }

  /**
   * How a release detail and its hit map into a release result: the detail's own
   * uri as the only link, its images, genres and labels, one numbered media for a
   * track list, and the barcode tag.
   */
  ghost predicate ReleaseMapped(hit: Hit, rel: ReleaseDetail, d: ReleaseSearchResult) {
    d.discogsId == rel.id && d.releaseType == hit.kind && d.profile == rel.notes
    && d.released == rel.released && d.urls == [rel.uri] && d.genres == rel.genres
    && (rel.labels.None? ==> d.labels.None?)
    && (rel.labels.Some? ==> d.labels == Some(MapLabels(rel.labels.value)))
    && (rel.images.None? ==> d.imageUrls == [] && d.thumbnailUrl.None?)
    && (rel.images.Some? ==>
          d.imageUrls == ImageUrls(rel.images.value) && Success(d.thumbnailUrl) == Thumbnail(rel.images.value))
    && d.tags == BarcodeTags(rel.identifiers)
    && (rel.tracklist.None? ==> d.media.None?)
    && (rel.tracklist.Some? ==>
          (d.media.Some? && |d.media.value| == 1
           && d.media.value[0].mediaNumber == 1
           && d.media.value[0].trackCount == Wrap16(|rel.tracklist.value|)
           && |d.media.value[0].tracks| == |rel.tracklist.value|
           && forall i :: 0 <= i < |d.media.value[0].tracks| ==>
                d.media.value[0].tracks[i]
                == TrackSearchResult(Wrap16(i + 1), Sorting.SortBy(rel.tracklist.value, PositionOf)[i].title,
                                     Sorting.SortBy(rel.tracklist.value, PositionOf)[i].duration,
                                     Sorting.SortBy(rel.tracklist.value, PositionOf)[i].kind)))
  }

  /**
   * A release of fewer than 32768 tracks has its tracks numbered exactly 1..n
   * and its exact track count: the `short` counter does not wrap.
   */
  lemma ShortTracklistNumbering(hit: Hit, rel: ReleaseDetail, d: ReleaseSearchResult)
    requires ReleaseMapped(hit, rel, d) && rel.tracklist.Some? && |rel.tracklist.value| < 0x8000
    ensures d.media.Some? && |d.media.value| == 1
    ensures d.media.value[0].trackCount == |rel.tracklist.value|
    ensures forall i :: 0 <= i < |d.media.value[0].tracks| ==> d.media.value[0].tracks[i].trackNumber == i + 1
  {
    var tracks := d.media.value[0].tracks;
    forall i | 0 <= i < |tracks|
      ensures tracks[i].trackNumber == i + 1
    {
      assert tracks[i].trackNumber == Wrap16(i + 1);
    }
  }

  /** The release result built from a hit, its detail and the detail's image mapping. */
  method MapRelease(hit: Hit, rel: ReleaseDetail, images: (seq<Option<string>>, Option<string>)) returns (d: ReleaseSearchResult)
    requires ImagesAndThumbnail(rel.images) == Success(images)
    ensures ReleaseMapped(hit, rel, d)
  {
    var media: Option<seq<ReleaseMedia>> := None;
    if rel.tracklist.Some? {
      var m := NumberTracks(rel.tracklist.value);
      media := Some([m]);
    }
    var labels := if rel.labels.Some? then Some(MapLabels(rel.labels.value)) else None;
    d := ReleaseSearchResult(rel.id, hit.kind, rel.released, rel.notes, images.1,
                             [rel.uri], images.0, rel.genres, labels, media, BarcodeTags(rel.identifiers));
  }

  /** The release search's request: up to ten hits of type "release", by artist when one is named. */
  method ReleaseRequest(query: string, artistName: Option<string>, apiKey: ApiKey) returns (request: seq<Parameter>)
    ensures |request| >= 6 && request[0] == Parameter("page", IntValue(1))
    ensures request[1] == Parameter("per_page", IntValue(10))
    ensures request[2] == Parameter("type", TextValue(Some("release")))
    ensures request[3] == Parameter("q", TextValue(Some(Quoted(Text.Trim(query)))))
    ensures artistName.Some? && artistName.value != "" ==>
      |request| == 7 && request[4] == Parameter("artist", TextValue(Some(Quoted(Text.Trim(artistName.value)))))
    ensures !(artistName.Some? && artistName.value != "") ==> |request| == 6
    ensures request[|request| - 2] == Parameter("key", TextValue(apiKey.key))
      && request[|request| - 1] == Parameter("secret", TextValue(apiKey.secret))
  {
    request := BuildSearchRequest(query, 10, "release", artistName, apiKey);
    if artistName.Some? && artistName.value != "" {
      assert |request| == 7;
      assert request[|request| - 3] == request[4];
    } else {
      assert |request| == 6;
    }
  }

  /**
   * `PerformReleaseSearch`: searches with up to ten hits, continues with the
   * earliest hit, and maps the release detail as `ReleaseMapped` says.
   */
  method PerformReleaseSearch(artistName: Option<string>, query: string, resultsCount: int, apiKey: ApiKey,
                              response: SearchResponse, fetch: int -> Option<ReleaseDetail>)
    returns (request: seq<Parameter>, r: SearchOutcome<ReleaseSearchResult>)
    ensures |request| >= 6 && request[0] == Parameter("page", IntValue(1))
    ensures request[1] == Parameter("per_page", IntValue(10))
    ensures request[2] == Parameter("type", TextValue(Some("release")))
    ensures request[3] == Parameter("q", TextValue(Some(Quoted(Text.Trim(query)))))
    ensures artistName.Some? && artistName.value != "" ==>
      |request| == 7 && request[4] == Parameter("artist", TextValue(Some(Quoted(Text.Trim(artistName.value)))))
    ensures !(artistName.Some? && artistName.value != "") ==> |request| == 6
    ensures request[|request| - 2] == Parameter("key", TextValue(apiKey.key))
      && request[|request| - 1] == Parameter("secret", TextValue(apiKey.secret))
    ensures |r.data| == 1 && (r.isSuccess <==> r.data[0].Some?)
    ensures response.isError ==> !r.isSuccess
    ensures r.isSuccess <==>
      ReleaseHit(response).Success? && ReleaseHit(response).value.Some?
      && fetch(ReleaseHit(response).value.value.id).Some?
      && ImagesAndThumbnail(fetch(ReleaseHit(response).value.value.id).value.images).Success?
    ensures r.isSuccess ==>
      ReleaseMapped(ReleaseHit(response).value.value, fetch(ReleaseHit(response).value.value.id).value, r.data[0].value)
  {
    request := ReleaseRequest(query, artistName, apiKey);
    r := ReleaseSearchBody(response, fetch);
  }

  /** The body of the release search, after the request: hit selection, detail and mapping. */
  method ReleaseSearchBody(response: SearchResponse, fetch: int -> Option<ReleaseDetail>)
    returns (r: SearchOutcome<ReleaseSearchResult>)
    ensures |r.data| == 1 && (r.isSuccess <==> r.data[0].Some?)
    ensures response.isError ==> !r.isSuccess
    ensures r.isSuccess <==>
      ReleaseHit(response).Success? && ReleaseHit(response).value.Some?
      && fetch(ReleaseHit(response).value.value.id).Some?
      && ImagesAndThumbnail(fetch(ReleaseHit(response).value.value.id).value.images).Success?
    ensures r.isSuccess ==>
      ReleaseMapped(ReleaseHit(response).value.value, fetch(ReleaseHit(response).value.value.id).value, r.data[0].value)
  {
    var hit := ReleaseHit(response);
    if hit.Failure? || hit.value.None? || fetch(hit.value.value.id).None? {
      r := SearchOutcome(false, [None]);
      return;
    }
    var rel := fetch(hit.value.value.id).value;
    var images := ImagesAndThumbnail(rel.images);
    if images.Failure? {
      r := SearchOutcome(false, [None]);
      return;
    }
    var d := MapRelease(hit.value.value, rel, images.value);
    r := SearchOutcome(true, [Some(d)]);
  }
}
