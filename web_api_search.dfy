/** The search request's query text and the decoding of a search response
    into the tracks it lists. */
module WebApiSearch {
  import opened Wrappers
  import opened JsonValue
  import opened Decimal
  import opened WebApiResource
  import Text

  /** `SearchQuery::new` is this constructor: it keeps title, artist and
      album as given. */
  datatype SearchQuery = SearchQuery(title: string, artist: string, album: string)

  /** `Display for SearchQuery`: the title as free text, then the `track:`,
      `artist:` and `album:` filters. The text starts with the title, repeats
      it after ` track:`, and ends with the album after ` album:`; its length
      is that of its parts. */
  function QueryText(q: SearchQuery): (r: string)
    ensures |r| == 2 * |q.title| + |q.artist| + |q.album| + 22
    ensures r[..|q.title|] == q.title
    ensures r[|q.title|..|q.title| + 7] == " track:"
    ensures r[|q.title| + 7..2 * |q.title| + 7] == q.title
    ensures r[|r| - |q.album| - 7..] == " album:" + q.album
  {
    q.title + " track:" + q.title + " artist:" + q.artist + " album:" + q.album
  }

  /** What follows the `track` filter's colon, and what follows the
      `artist` filter's. */
  function AfterTrack(q: SearchQuery): string
  {
    q.title + " artist" + [':'] + AfterArtist(q)
  }

  function AfterArtist(q: SearchQuery): string
  {
    q.artist + " album" + [':'] + q.album
  }

  lemma QueryTextSplit(q: SearchQuery)
    ensures QueryText(q) == (q.title + " track") + [':'] + AfterTrack(q)
    ensures AfterTrack(q) == q.title + (" artist" + [':'] + AfterArtist(q))
  {
  }

  /** Queries whose title and artist hold no colon are told apart by their
      text: equal texts mean equal title, artist and album. */
  lemma QueryTextInjective(q1: SearchQuery, q2: SearchQuery)
    requires ':' !in q1.title && ':' !in q1.artist
    requires ':' !in q2.title && ':' !in q2.artist
    requires QueryText(q1) == QueryText(q2)
    ensures q1 == q2
  {
    QueryTextSplit(q1);
    QueryTextSplit(q2);
    assert ':' !in q1.title + " track" && ':' !in q2.title + " track";
    Text.SplitAt(':', q1.title + " track", AfterTrack(q1), q2.title + " track", AfterTrack(q2));
    Text.SuffixCancel(q1.title, q2.title, " track");
    Text.PrefixCancel(q1.title, " artist" + [':'] + AfterArtist(q1), " artist" + [':'] + AfterArtist(q2));
    assert " artist" + [':'] == " artist:";
    Text.PrefixCancel(" artist:", AfterArtist(q1), AfterArtist(q2));
    assert ':' !in q1.artist + " album" && ':' !in q2.artist + " album";
    Text.SplitAt(':', q1.artist + " album", q1.album, q2.artist + " album", q2.album);
    Text.SuffixCancel(q1.artist, q2.artist, " album");
  }

  /** The HTTP response of the search request: its status, its body text,
      and what `serde_json::from_str` made of that text (`None` if it is not
      JSON). */
  datatype Response = Response(status: u16, body: string, parsed: Option<Json>)

  /** `StatusCode::is_success`: a 2xx status. */
  predicate IsSuccess(status: u16)
  {
    200 <= status < 300
  }

  /** `TrackInfo::try_from` with its error dropped; that error is always
      `UnexpectedResponse`. */
  function TrackOf(item: Json): Option<TrackInfo>
  {
    match TryFrom(item)
    case Success(t) => Some(t)
    case Failure(_) => None
  }

  /** The array at `tracks.items`, if there is one. */
  function Items(res: Json): Option<seq<Json>>
  {
    match Get(res, "tracks")
    case None => None
    case Some(tracks) =>
      match Get(tracks, "items")
      case None => None
      case Some(items) => AsArray(items)
  }

  /** What `SearchClient::search` returns once the response has arrived.
      An `ApiError` arises exactly for a status outside 2xx; the other errors
      are `JsonParseError` with the body text and `UnexpectedResponse`. A
      success lists one track per item of `tracks.items`. */
  function Search(resp: Response): (r: Result<seq<TrackInfo>, WebApiError>)
    ensures r.Failure? ==> (r.error.ApiError? <==> !IsSuccess(resp.status))
    ensures r.Failure? ==>
      r.error == ApiError(resp.status, resp.body) || r.error == JsonParseError(resp.body) ||
      r.error == UnexpectedResponse
    ensures r.Success? ==>
      IsSuccess(resp.status) && resp.parsed.Some? && Items(resp.parsed.value).Some? &&
      |r.value| == |Items(resp.parsed.value).value|
  {
    if !IsSuccess(resp.status) then Failure(ApiError(resp.status, resp.body))
    else match resp.parsed
      case None => Failure(JsonParseError(resp.body))
      case Some(res) =>
        match Items(res)
        case None => Failure(UnexpectedResponse)
        case Some(items) =>
          AllOrNothingSpec(items, TrackOf);
          match AllOrNothing(items, TrackOf)
          case None => Failure(UnexpectedResponse)
          case Some(tracks) => Success(tracks)
  }

  /** The decoding part of `search`: a vector of tracks pushed to item by
      item, returning the first item's error. */
  method DecodeSearch(resp: Response) returns (r: Result<seq<TrackInfo>, WebApiError>)
    ensures r == Search(resp)
  {
    if !IsSuccess(resp.status) {
      return Failure(ApiError(resp.status, resp.body));
    }
    if resp.parsed.None? {
      return Failure(JsonParseError(resp.body));
    }
    var res := resp.parsed.value;
    var tracksValue := Get(res, "tracks");
    if tracksValue.None? {
      return Failure(UnexpectedResponse);
    }
    var itemsValue := Get(tracksValue.value, "items");
    if itemsValue.None? {
      return Failure(UnexpectedResponse);
    }
    var arr := AsArray(itemsValue.value);
    if arr.None? {
      return Failure(UnexpectedResponse);
    }
    var items := arr.value;
    AllOrNothingSpec(items, TrackOf);
    var tracks: seq<TrackInfo> := [];
    var i := 0;
    while i < |items|
      invariant 0 <= i <= |items|
      invariant |tracks| == i
      invariant forall k :: 0 <= k < i ==> TrackOf(items[k]) == Some(tracks[k])
    {
      var track := TryFrom(items[i]);
      if track.Failure? {
        return Failure(track.error);
      }
      tracks := tracks + [track.value];
      i := i + 1;
    }
    AllOrNothingOfValues(items, TrackOf, tracks);
    return Success(tracks);
  }

  /** A status outside 2xx is `ApiError` with that status and the body text,
      and nothing is decoded. */
  lemma SearchApiError(resp: Response)
    requires !IsSuccess(resp.status)
    ensures Search(resp) == Failure(ApiError(resp.status, resp.body))
  {
  }

  /** A 2xx body without `tracks`, without `tracks.items`, or whose
      `tracks.items` is not an array is `UnexpectedResponse`; a body that is
      not JSON is `JsonParseError` with the body text. */
  lemma SearchShapeErrors(status: u16, body: string, res: Json)
    requires IsSuccess(status)
    ensures Search(Response(status, body, None)) == Failure(JsonParseError(body))
    ensures Get(res, "tracks").None? ==> Search(Response(status, body, Some(res))) == Failure(UnexpectedResponse)
    ensures Get(res, "tracks").Some? && Get(Get(res, "tracks").value, "items").None? ==>
      Search(Response(status, body, Some(res))) == Failure(UnexpectedResponse)
    ensures Get(res, "tracks").Some? && Get(Get(res, "tracks").value, "items").Some? ==>
      (!Get(Get(res, "tracks").value, "items").value.Arr? ==> Search(Response(status, body, Some(res))) == Failure(UnexpectedResponse))
  {
  }

  /** All or nothing: one item that is not a track fails the whole search
      with `UnexpectedResponse`. */
  lemma SearchAllOrNothing(status: u16, body: string, res: Json, j: nat)
    requires IsSuccess(status) && Items(res).Some?
    requires j < |Items(res).value| && TryFrom(Items(res).value[j]).Failure?
    ensures Search(Response(status, body, Some(res))) == Failure(UnexpectedResponse)
  {
    AllOrNothingSpec(Items(res).value, TrackOf);
    assert TrackOf(Items(res).value[j]).None?;
  }

  /** On success there is one track per item of `tracks.items`, in item
      order, each the item's own decoding. */
  lemma SearchSuccess(resp: Response)
    requires Search(resp).Success?
    ensures IsSuccess(resp.status) && resp.parsed.Some? && Items(resp.parsed.value).Some?
    ensures |Search(resp).value| == |Items(resp.parsed.value).value|
    ensures forall i :: 0 <= i < |Search(resp).value| ==>
      TryFrom(Items(resp.parsed.value).value[i]) == Success(Search(resp).value[i])
  {
    AllOrNothingSpec(Items(resp.parsed.value).value, TrackOf);
  }

  /** The response body that lists the given tracks, each with its own
      artist only. */
  function EncodeResponse(ts: seq<TrackInfo>): Json
  {
    Obj(map["tracks" := Obj(map["items" := Arr(seq(|ts|, i requires 0 <= i < |ts| => Encode(ts[i], [])))])])
  }

  /** A 2xx response listing some tracks decodes to exactly those tracks,
      in order. */
  lemma SearchEncode(status: u16, body: string, ts: seq<TrackInfo>)
    requires IsSuccess(status)
    ensures Search(Response(status, body, Some(EncodeResponse(ts)))) == Success(ts)
  {
    var items := seq(|ts|, i requires 0 <= i < |ts| => Encode(ts[i], []));
    assert Items(EncodeResponse(ts)) == Some(items);
    forall i | 0 <= i < |items| ensures TrackOf(items[i]) == Some(ts[i]) {
      TryFromEncode(ts[i], []);
    }
    AllOrNothingOfValues(items, TrackOf, ts);
  }
}
