/** The web player's `Lyrics` and its decoding from the `lines` array
    itself, failing with `UnexpectedResponse`. */
module WebPlayerResource {
  import opened Wrappers
  import opened JsonValue
  import opened Decimal
  import opened LyricLines

  /** `WebPlayerError`. `HttpError` wraps a transport error of the HTTP
      client, which is not modelled, so it carries nothing here. */
  datatype WebPlayerError =
    | HttpError
    | InvalidToken
    | ApiError(status: u16, body: string)
    | JsonParseError(text: string)
    | UnexpectedResponse
    | Unknown

  datatype Lyrics = Lyrics(lines: seq<LyricLine>)

  /** What `TryFrom<&Value> for Lyrics` yields: the value must be an array,
      decoded all or nothing. Every failure is `UnexpectedResponse`; a success
      has one line per array element. */
  function Decode(json: Json): (r: Result<Lyrics, WebPlayerError>)
    ensures r.Failure? ==> r.error == UnexpectedResponse
    ensures r.Success? ==> json.Arr? && |r.value.lines| == |json.items|
  {
    match AsArray(json)
    case None => Failure(UnexpectedResponse)
    case Some(items) =>
      match DecodeLines(items)
      case None => Failure(UnexpectedResponse)
      case Some(ls) => Success(Lyrics(ls))
  }

  /** The loop of `try_from`: a vector of lines pushed to element by element,
      returning early on the first element that does not decode. */
  method TryFrom(json: Json) returns (r: Result<Lyrics, WebPlayerError>)
    ensures r == Decode(json)
  {
    var arr := AsArray(json);
    if arr.None? {
      return Failure(UnexpectedResponse);
    }
    var items := arr.value;
    DecodeLinesSpec(items);
    var lines: seq<LyricLine> := [];
    var i := 0;
    while i < |items|
      invariant 0 <= i <= |items|
      invariant |lines| == i
      invariant forall k :: 0 <= k < i ==> DecodeLine(items[k]) == Some(lines[k])
    {
      var line := items[i];
      var words := GetStr(line, "words");
      if words.None? {
        return Failure(UnexpectedResponse);
      }
      var text := GetStr(line, "startTimeMs");
      if text.None? {
        return Failure(UnexpectedResponse);
      }
      var start := ParseU64(text.value);
      if start.None? {
        return Failure(UnexpectedResponse);
      }
      lines := lines + [LyricLine(words.value, start.value)];
      i := i + 1;
    }
    AllOrNothingOfValues(items, DecodeLine, lines);
    return Success(Lyrics(lines));
  }

  /** A value that is not an array is `UnexpectedResponse`, as is an array
      with any element that does not decode. */
  lemma DecodeErrors(json: Json)
    ensures !json.Arr? ==> Decode(json) == Failure(UnexpectedResponse)
    ensures json.Arr? && (exists j :: 0 <= j < |json.items| && DecodeLine(json.items[j]).None?) ==>
      Decode(json) == Failure(UnexpectedResponse)
  {
    if json.Arr? {
      DecodeLinesSpec(json.items);
    }
  }

  /** On success there is one line per array element, in array order, each
      carrying the element's words verbatim and the value of its
      `startTimeMs` text. */
  lemma DecodeSuccess(items: seq<Json>)
    requires Decode(Arr(items)).Success?
    ensures |Decode(Arr(items)).value.lines| == |items|
    ensures forall i :: 0 <= i < |items| ==>
      items[i].Obj? && "words" in items[i].fields && "startTimeMs" in items[i].fields &&
      items[i].fields["words"] == Str(Decode(Arr(items)).value.lines[i].words) &&
      items[i].fields["startTimeMs"].Str? &&
      ParseU64(items[i].fields["startTimeMs"].s) == Some(Decode(Arr(items)).value.lines[i].startTime)
  {
    DecodeLinesSpec(items);
    forall i | 0 <= i < |items|
      ensures items[i].Obj? && "words" in items[i].fields && "startTimeMs" in items[i].fields &&
        items[i].fields["words"] == Str(Decode(Arr(items)).value.lines[i].words) &&
        items[i].fields["startTimeMs"].Str? &&
        ParseU64(items[i].fields["startTimeMs"].s) == Some(Decode(Arr(items)).value.lines[i].startTime)
    {
      DecodeLineAccepts(items[i]);
    }
  }

  /** An empty array decodes to no lines. */
  lemma DecodeEmpty()
    ensures Decode(Arr([])) == Success(Lyrics([]))
  {
  }

  /** Decoding the array of a sequence of lines gives those lines back. */
  lemma DecodeEncode(ls: seq<LyricLine>)
    ensures Decode(Arr(EncodeLines(ls))) == Success(Lyrics(ls))
  {
    DecodeEncodeLines(ls);
  }
}
