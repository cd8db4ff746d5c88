/** The artist view model: its pipe-separated ISNI list, tooltip and defaults. */
module ArtistModel {
  import opened Wrappers
  import Text
  import ListExt

  /** The fields of the artist model that carry behaviour. */
  datatype Artist = Artist(name: Option<string>, bandStatus: Option<string>, isniList: Option<string>)
  {
    /** `ISNIListList`: null for a null or empty `ISNIList`, otherwise its pieces between `'|'`. */
    function IsniListList(): (r: Option<seq<string>>)
      ensures r.None? <==> isniList.None? || isniList.value == ""
      ensures r.Some? ==> |r.value| == 1 + Text.Count(isniList.value, '|')
      ensures r.Some? ==> Text.Join(r.value, '|') == isniList.value
      ensures r.Some? ==> Text.FreeOf(r.value, '|')
    {
      if isniList.None? || isniList.value == "" then None
      else
        Text.SplitCount(isniList.value, '|');
        Text.JoinSplit(isniList.value, '|');
        Text.SplitFreeOf(isniList.value, '|');
        Some(Text.Split(isniList.value, '|'))
    }

    /** `Tooltip` is the name, unchanged (null included). */
    function Tooltip(): (r: Option<string>)
      ensures r == name
    {
      name
    }
  }

  /** A new artist: band status "1", nothing else set. */
  function NewArtist(): (r: Artist)
    ensures r.bandStatus == Some("1")
    ensures r.name.None? && r.isniList.None?
  {
    Artist(None, Some("1"), None)
  }

  /**
   * Storing a list with `ToDelimitedList` and reading it back through `ISNIListList`
   * gives the same list, provided no element contains `'|'` and the list is not the
   * single empty string (which is stored as "" and read back as null).
   */
  lemma IsniRoundTrip(a: Artist, list: seq<string>)
    requires |list| > 0 && Text.FreeOf(list, '|') && list != [""]
    ensures a.(isniList := ListExt.ToDelimitedList(Some(list), '|')).IsniListList() == Some(list)
  {
    if |list| >= 2 {
      Text.JoinHasDelimiter(list, '|');
    }
    Text.SplitJoin(list, '|');
  }

  /** The exception to the round trip: a list of one empty string comes back as null. */
  lemma IsniEmptyElementLost(a: Artist)
    ensures a.(isniList := ListExt.ToDelimitedList(Some([""]), '|')).IsniListList() == None
  {
  }
}
