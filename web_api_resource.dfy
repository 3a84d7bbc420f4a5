/** The Web API's `TrackInfo`: decoded from a track object of a search
    response, and displayed as one line for the selection prompt. */
module WebApiResource {
  import opened Wrappers
  import opened JsonValue
  import opened Decimal
  import Text

  /** `WebApiError`. `HttpError` wraps a transport error of the HTTP client,
      which is not modelled, so it carries nothing here. */
  datatype WebApiError =
    | HttpError
    | InvalidToken
    | ApiError(status: u16, body: string)
    | JsonParseError(text: string)
    | UnexpectedResponse
    | Unknown

  /** `TrackInfo::new` is this constructor: it keeps its four arguments. */
  datatype TrackInfo = TrackInfo(id: string, title: string, artist: string, album: string)

  /** `artists[0].name`: the name of the first artist only. */
  function FirstArtistName(json: Json): Option<string>
  {
    match Get(json, "artists")
    case None => None
    case Some(artists) =>
      match At(artists, 0)
      case None => None
      case Some(first) => GetStr(first, "name")
  }

  /** `album.name`. */
  function AlbumName(json: Json): Option<string>
  {
    match Get(json, "album")
    case None => None
    case Some(album) => GetStr(album, "name")
  }

  /** `TryFrom<&Value> for TrackInfo`: the object decodes exactly when each
      of the four paths leads to a string, and the only error is
      `UnexpectedResponse`. */
  function TryFrom(json: Json): (r: Result<TrackInfo, WebApiError>)
    ensures r.Success? <==> GetStr(json, "id").Some? && GetStr(json, "name").Some? &&
                            FirstArtistName(json).Some? && AlbumName(json).Some?
    ensures r.Failure? ==> r.error == UnexpectedResponse
  {
    match GetStr(json, "id")
    case None => Failure(UnexpectedResponse)
    case Some(id) =>
      match GetStr(json, "name")
      case None => Failure(UnexpectedResponse)
      case Some(title) =>
        match FirstArtistName(json)
        case None => Failure(UnexpectedResponse)
        case Some(artist) =>
          match AlbumName(json)
          case None => Failure(UnexpectedResponse)
          case Some(album) => Success(TrackInfo(id, title, artist, album))
  }

  /** The object for a track, with one artist per name in `artists`. */
  function Encode(t: TrackInfo, otherArtists: seq<Json>): Json
  {
    Obj(map[
      "id" := Str(t.id),
      "name" := Str(t.title),
      "artists" := Arr([Obj(map["name" := Str(t.artist)])] + otherArtists),
      "album" := Obj(map["name" := Str(t.album)])
    ])
  }

  /** A decoded track holds, verbatim, the strings at `id`, `name`,
      `artists[0].name` and `album.name`. */
  lemma TryFromFields(json: Json)
    requires TryFrom(json).Success?
    ensures json.Obj?
    ensures "id" in json.fields && json.fields["id"] == Str(TryFrom(json).value.id)
    ensures "name" in json.fields && json.fields["name"] == Str(TryFrom(json).value.title)
    ensures "artists" in json.fields && json.fields["artists"].Arr? && |json.fields["artists"].items| > 0
    ensures json.fields["artists"].items[0].Obj? && "name" in json.fields["artists"].items[0].fields
    ensures json.fields["artists"].items[0].fields["name"] == Str(TryFrom(json).value.artist)
    ensures "album" in json.fields && json.fields["album"].Obj? && "name" in json.fields["album"].fields
    ensures json.fields["album"].fields["name"] == Str(TryFrom(json).value.album)
  {
  }

  /** Only the first artist counts: the artists after it do not change the
      result. */
  lemma TryFromFirstArtistOnly(fields: map<string, Json>, first: Json, rest1: seq<Json>, rest2: seq<Json>)
    ensures TryFrom(Obj(fields["artists" := Arr([first] + rest1)])) ==
            TryFrom(Obj(fields["artists" := Arr([first] + rest2)]))
  {
    var j1, j2 := Obj(fields["artists" := Arr([first] + rest1)]), Obj(fields["artists" := Arr([first] + rest2)]);
    assert FirstArtistName(j1) == GetStr(first, "name") == FirstArtistName(j2);
  }

  /** Decoding the object of a track gives the track back, whatever other
      artists follow the first. */
  lemma TryFromEncode(t: TrackInfo, otherArtists: seq<Json>)
    ensures TryFrom(Encode(t, otherArtists)) == Success(t)
  {
    var json := Encode(t, otherArtists);
    assert GetStr(json, "id") == Some(t.id);
    assert GetStr(json, "name") == Some(t.title);
    assert FirstArtistName(json) == Some(t.artist);
    assert AlbumName(json) == Some(t.album);
  }

  /** `Display for TrackInfo`:
      `Title: "<title>",  Artist: "<artist>",  Album: "<album>"`. The line
      opens with the title in quotes, closes with a quote, and adds 34
      characters of labels and quotes to the three fields. */
  function Display(t: TrackInfo): (r: string)
    ensures |r| == |t.title| + |t.artist| + |t.album| + 34
    ensures r[..8] == "Title: \"" && r[8..8 + |t.title|] == t.title && r[8 + |t.title|] == '"'
    ensures r[|r| - |t.album| - 1..|r| - 1] == t.album && r[|r| - 1] == '"'
  {
    "Title: \"" + t.title + "\",  Artist: \"" + t.artist + "\",  Album: \"" + t.album + "\""
  }

  /** What follows the title's closing quote, and what follows the
      artist's. */
  function ArtistPart(t: TrackInfo): string
  {
    ",  Artist: \"" + (t.artist + ['"'] + AlbumPart(t))
  }

  function AlbumPart(t: TrackInfo): string
  {
    ",  Album: \"" + (t.album + "\"")
  }

  lemma DisplaySplit(t: TrackInfo)
    ensures Display(t) == "Title: \"" + (t.title + ['"'] + ArtistPart(t))
  {
  }

  /** Tracks whose title and artist hold no double quote are told apart by
      their display line: equal lines mean equal title, artist and album. */
  lemma DisplayInjective(t1: TrackInfo, t2: TrackInfo)
    requires '"' !in t1.title && '"' !in t1.artist
    requires '"' !in t2.title && '"' !in t2.artist
    requires Display(t1) == Display(t2)
    ensures t1.title == t2.title && t1.artist == t2.artist && t1.album == t2.album
  {
    DisplaySplit(t1);
    DisplaySplit(t2);
    Text.PrefixCancel("Title: \"", t1.title + ['"'] + ArtistPart(t1), t2.title + ['"'] + ArtistPart(t2));
    Text.SplitAt('"', t1.title, ArtistPart(t1), t2.title, ArtistPart(t2));
    Text.PrefixCancel(",  Artist: \"", t1.artist + ['"'] + AlbumPart(t1), t2.artist + ['"'] + AlbumPart(t2));
    Text.SplitAt('"', t1.artist, AlbumPart(t1), t2.artist, AlbumPart(t2));
    Text.PrefixCancel(",  Album: \"", t1.album + "\"", t2.album + "\"");
    Text.SuffixCancel(t1.album, t2.album, "\"");
  }
}
