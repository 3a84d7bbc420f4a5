/** `SpotifyLyric` and its decoding from the whole lyrics document
    (`{"lyrics": {"lines": [...]}}`), failing with `InvalidJSON`. */
module SpotifyLyrics {
  import opened Wrappers
  import opened JsonValue
  import opened Decimal
  import opened LyricLines

  /** The library's `Error`. */
  datatype Error = InvalidJSON | Unknown

  datatype SpotifyLyric = SpotifyLyric(lines: seq<LyricLine>)

  /** What `TryFrom<&Value> for SpotifyLyric` yields: the array at
      `lyrics.lines`, decoded all or nothing. Every failure is `InvalidJSON`;
      a success has one line per element of that array. */
  function Decode(json: Json): (r: Result<SpotifyLyric, Error>)
    ensures r.Failure? ==> r.error == InvalidJSON
    ensures r.Success? ==>
      Get(json, "lyrics").Some? && Get(Get(json, "lyrics").value, "lines").Some? &&
      Get(Get(json, "lyrics").value, "lines").value.Arr? &&
      |r.value.lines| == |Get(Get(json, "lyrics").value, "lines").value.items|
  {
    match Get(json, "lyrics")
    case None => Failure(InvalidJSON)
    case Some(lyrics) =>
      match Get(lyrics, "lines")
      case None => Failure(InvalidJSON)
      case Some(lines) =>
        match AsArray(lines)
        case None => Failure(InvalidJSON)
        case Some(items) =>
          match DecodeLines(items)
          case None => Failure(InvalidJSON)
          case Some(ls) => Success(SpotifyLyric(ls))
  }

  /** The loop of `try_from`: a vector of lines pushed to element by element,
      returning early on the first element that does not decode. */
  method TryFrom(json: Json) returns (r: Result<SpotifyLyric, Error>)
    ensures r == Decode(json)
  {
    var lyrics := Get(json, "lyrics");
    if lyrics.None? {
      return Failure(InvalidJSON);
    }
    var lyricLines := Get(lyrics.value, "lines");
    if lyricLines.None? {
      return Failure(InvalidJSON);
    }
    var arr := AsArray(lyricLines.value);
    if arr.None? {
      return Failure(InvalidJSON);
    }
    var items := arr.value;
    DecodeLinesSpec(items);
    var lines: seq<LyricLine> := [];
    var i := 0;
    while i < |items|
      invariant 0 <= i <= |items|
      invariant |lines| == i
      invariant forall k :: 0 <= k < i ==> DecodeLine(items[k]) == Some(lines[k])
    {
      var line := items[i];
      var words := GetStr(line, "words");
      if words.None? {
        return Failure(InvalidJSON);
      }
      var text := GetStr(line, "startTimeMs");
      if text.None? {
        return Failure(InvalidJSON);
      }
      var start := ParseU64(text.value);
      if start.None? {
        return Failure(InvalidJSON);
      }
      lines := lines + [LyricLine(words.value, start.value)];
      i := i + 1;
    }
    AllOrNothingOfValues(items, DecodeLine, lines);
    return Success(SpotifyLyric(lines));
  }

  /** The document wrapping a sequence of lines as the service sends it. */
  function Encode(ls: seq<LyricLine>): Json
  {
    Obj(map["lyrics" := Obj(map["lines" := Arr(EncodeLines(ls))])])
  }

  /** A missing `lyrics`, a missing `lines` under it, or a `lines` that is
      not an array is `InvalidJSON`. */
  lemma DecodeErrors(json: Json)
    ensures Get(json, "lyrics").None? ==> Decode(json) == Failure(InvalidJSON)
    ensures Get(json, "lyrics").Some? && Get(Get(json, "lyrics").value, "lines").None? ==>
      Decode(json) == Failure(InvalidJSON)
    ensures Get(json, "lyrics").Some? && Get(Get(json, "lyrics").value, "lines").Some? ==>
      (!Get(Get(json, "lyrics").value, "lines").value.Arr? ==> Decode(json) == Failure(InvalidJSON))
  {
  }

  /** A single bad element fails the whole document, whatever the others. */
  lemma DecodeAllOrNothing(json: Json, items: seq<Json>, j: nat)
    requires Get(json, "lyrics").Some? && Get(Get(json, "lyrics").value, "lines") == Some(Arr(items))
    requires j < |items| && DecodeLine(items[j]).None?
    ensures Decode(json) == Failure(InvalidJSON)
  {
    DecodeLinesSpec(items);
  }

  /** On success there is one line per element of `lyrics.lines`, in array
      order, each carrying the element's words verbatim and the value of its
      `startTimeMs` text. */
  lemma DecodeSuccess(json: Json, items: seq<Json>)
    requires Get(json, "lyrics").Some? && Get(Get(json, "lyrics").value, "lines") == Some(Arr(items))
    requires Decode(json).Success?
    ensures |Decode(json).value.lines| == |items|
    ensures forall i :: 0 <= i < |items| ==>
      items[i].Obj? && "words" in items[i].fields && "startTimeMs" in items[i].fields &&
      items[i].fields["words"] == Str(Decode(json).value.lines[i].words) &&
      items[i].fields["startTimeMs"].Str? &&
      ParseU64(items[i].fields["startTimeMs"].s) == Some(Decode(json).value.lines[i].startTime)
  {
    DecodeLinesSpec(items);
    forall i | 0 <= i < |items|
      ensures items[i].Obj? && "words" in items[i].fields && "startTimeMs" in items[i].fields &&
        items[i].fields["words"] == Str(Decode(json).value.lines[i].words) &&
        items[i].fields["startTimeMs"].Str? &&
        ParseU64(items[i].fields["startTimeMs"].s) == Some(Decode(json).value.lines[i].startTime)
    {
      DecodeLineAccepts(items[i]);
    }
  }

  /** Decoding the document of a sequence of lines gives those lines back. */
  lemma DecodeEncode(ls: seq<LyricLine>)
    ensures Decode(Encode(ls)) == Success(SpotifyLyric(ls))
  {
    DecodeEncodeLines(ls);
  }
}
