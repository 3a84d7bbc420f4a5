/** A timed lyric line and the per-element step shared by both lyric
    decoders: a JSON object with a string `words` and a string `startTimeMs`
    that reads as a `u64`. */
module LyricLines {
  import opened Wrappers
  import opened JsonValue
  import opened Decimal

  /** `LyricLine { words, start_time }`: the text of a line and its start
      offset in milliseconds. */
  datatype LyricLine = LyricLine(words: string, startTime: u64)

  /** One element of the `lines` array, decoded as the loop bodies do: a
      missing or non-string `words`, a missing or non-string `startTimeMs`, or
      a `startTimeMs` that does not parse is a failure. An element decodes
      exactly when both members are strings and `startTimeMs` reads as a
      `u64`; the line then holds the words verbatim and that value. */
  function DecodeLine(v: Json): (r: Option<LyricLine>)
    ensures r.Some? <==> GetStr(v, "words").Some? && GetStr(v, "startTimeMs").Some? &&
                         ParseU64(GetStr(v, "startTimeMs").value).Some?
    ensures r.Some? ==> r.value.words == GetStr(v, "words").value &&
                        Some(r.value.startTime) == ParseU64(GetStr(v, "startTimeMs").value)
  {
    match GetStr(v, "words")
    case None => None
    case Some(words) =>
      match GetStr(v, "startTimeMs")
      case None => None
      case Some(text) =>
        match ParseU64(text)
        case None => None
        case Some(start) => Some(LyricLine(words, start))
  }

  /** The element the service sends for a line: its offset as the shortest
      decimal text. */
  function EncodeLine(l: LyricLine): Json
  {
    Obj(map["words" := Str(l.words), "startTimeMs" := Str(Digits(l.startTime as nat))])
  }

  function EncodeLines(ls: seq<LyricLine>): (items: seq<Json>)
    ensures |items| == |ls|
    ensures forall i :: 0 <= i < |ls| ==> items[i] == EncodeLine(ls[i])
  {
    seq(|ls|, i requires 0 <= i < |ls| => EncodeLine(ls[i]))
  }

  /** An accepted element gives its `words` verbatim and the value of its
      `startTimeMs` text, which is an optional `+`, zeros and the shortest
      digits of that value. */
  lemma DecodeLineAccepts(v: Json)
    requires DecodeLine(v).Some?
    ensures v.Obj? && "words" in v.fields && "startTimeMs" in v.fields
    ensures v.fields["words"] == Str(DecodeLine(v).value.words)
    ensures v.fields["startTimeMs"].Str?
    ensures ParseU64(v.fields["startTimeMs"].s) == Some(DecodeLine(v).value.startTime)
    ensures exists plus: bool, k: nat :: v.fields["startTimeMs"].s == Padded(plus, k, DecodeLine(v).value.startTime)
  {
    ParseSound(v.fields["startTimeMs"].s, DecodeLine(v).value.startTime);
  }

  /** The error cases of one element: `words` absent or not a string,
      `startTimeMs` absent, not a string (a JSON number included), or not a
      `u64` text. */
  lemma DecodeLineRejects(v: Json)
    ensures !v.Obj? ==> DecodeLine(v) == None
    ensures v.Obj? && "words" !in v.fields ==> DecodeLine(v) == None
    ensures v.Obj? && "words" in v.fields && !v.fields["words"].Str? ==> DecodeLine(v) == None
    ensures v.Obj? && "startTimeMs" !in v.fields ==> DecodeLine(v) == None
    ensures v.Obj? && "startTimeMs" in v.fields && v.fields["startTimeMs"].Num? ==> DecodeLine(v) == None
    ensures v.Obj? && "startTimeMs" in v.fields && !v.fields["startTimeMs"].Str? ==> DecodeLine(v) == None
    ensures v.Obj? && "startTimeMs" in v.fields && v.fields["startTimeMs"].Str? ==>
      (ParseU64(v.fields["startTimeMs"].s) == None ==> DecodeLine(v) == None)
  {
  }

  /** Decoding the element of a line gives the line back. */
  lemma DecodeEncodeLine(l: LyricLine)
    ensures DecodeLine(EncodeLine(l)) == Some(l)
  {
    var v := EncodeLine(l);
    assert GetStr(v, "words") == Some(l.words);
    assert GetStr(v, "startTimeMs") == Some(Digits(l.startTime as nat));
    ParseDigits(l.startTime);
  }

  /** The `for` loop over the array with `?` in its body: every element is
      decoded in order and the first failure fails the whole array. A
      success has one line per element. */
  function DecodeLines(items: seq<Json>): (r: Option<seq<LyricLine>>)
    ensures r.Some? ==> |r.value| == |items|
  {
    AllOrNothingSpec(items, DecodeLine);
    AllOrNothing(items, DecodeLine)
  }

  /** All or nothing: the array decodes exactly when every element does,
      and then into one line per element, in array order. */
  lemma DecodeLinesSpec(items: seq<Json>)
    ensures DecodeLines(items).Some? <==> forall i :: 0 <= i < |items| ==> DecodeLine(items[i]).Some?
    ensures DecodeLines(items).Some? ==>
      |DecodeLines(items).value| == |items| &&
      forall i :: 0 <= i < |items| ==> DecodeLine(items[i]) == Some(DecodeLines(items).value[i])
  {
    AllOrNothingSpec(items, DecodeLine);
  }

  /** An empty array decodes to no lines. */
  lemma DecodeLinesEmpty()
    ensures DecodeLines([]) == Some([])
  {
  }

  /** Decoding the encoded lines gives the lines back, in order. */
  lemma DecodeEncodeLines(ls: seq<LyricLine>)
    ensures DecodeLines(EncodeLines(ls)) == Some(ls)
  {
    var items := EncodeLines(ls);
    forall i | 0 <= i < |items| ensures DecodeLine(items[i]) == Some(ls[i]) {
      DecodeEncodeLine(ls[i]);
    }
    AllOrNothingOfValues(items, DecodeLine, ls);
  }
}
