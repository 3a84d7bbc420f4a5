/** The decisions of the command-line program: building the search query
    from the audio file's tag, picking the track whose metadata equals the
    tag, and choosing between that and the user's pick by mode. */
module App {
  import opened Wrappers
  import opened WebApiResource
  import opened WebApiSearch

  /** The three text frames of the file's tag that the program reads;
      `None` where the tag has no such frame. */
  datatype Tag = Tag(title: Option<string>, artist: Option<string>, album: Option<string>)

  /** The errors of this part of the program, with the name of the missing
      frame for the tag case. */
  datatype AppError = TagNotFound(frame: string) | SelectFailed

  predicate Complete(tag: Tag)
  {
    tag.title.Some? && tag.artist.Some? && tag.album.Some?
  }

  /** `create_search_query`: title, artist and album are each required, in
      that order. A query is built exactly when all three frames are
      present, and from exactly those three values; otherwise the error
      names the first missing frame. */
  function CreateSearchQuery(tag: Tag): (r: Result<SearchQuery, AppError>)
    ensures r.Success? <==> Complete(tag)
    ensures r.Success? ==> r.value == SearchQuery(tag.title.value, tag.artist.value, tag.album.value)
    ensures tag.title.None? ==> r == Failure(TagNotFound("title"))
    ensures tag.title.Some? && tag.artist.None? ==> r == Failure(TagNotFound("artist"))
    ensures tag.title.Some? && tag.artist.Some? && tag.album.None? ==> r == Failure(TagNotFound("album"))
  {
    match tag.title
    case None => Failure(TagNotFound("title"))
    case Some(title) =>
      match tag.artist
      case None => Failure(TagNotFound("artist"))
      case Some(artist) =>
        match tag.album
        case None => Failure(TagNotFound("album"))
        case Some(album) => Success(SearchQuery(title, artist, album))
  }

  /** A track is the tag's when title, artist and album are all equal. */
  predicate Matches(t: TrackInfo, tag: Tag)
    requires Complete(tag)
  {
    t.title == tag.title.value && t.artist == tag.artist.value && t.album == tag.album.value
  }

  /** `iter().find`: the index of the first matching track. */
  function FindMatch(tracks: seq<TrackInfo>, tag: Tag): (r: Option<nat>)
    requires Complete(tag)
    ensures r.Some? ==> r.value < |tracks| && Matches(tracks[r.value], tag)
    ensures r.Some? ==> forall j :: 0 <= j < r.value ==> !Matches(tracks[j], tag)
    ensures r.None? <==> forall j :: 0 <= j < |tracks| ==> !Matches(tracks[j], tag)
  {
    if tracks == [] then None
    else if Matches(tracks[0], tag) then Some(0)
    else match FindMatch(tracks[1..], tag)
      case None => None
      case Some(i) => Some(i + 1)
  }

  /** `select_track_by_identity`: the first track equal to the tag on all
      three fields. The tag's frames are unwrapped, so all three must be
      present (`create_search_query` has already required them). */
  function SelectTrackByIdentity(tracks: seq<TrackInfo>, tag: Tag): (r: Option<TrackInfo>)
    requires Complete(tag)
    ensures r.None? <==> forall j :: 0 <= j < |tracks| ==> !Matches(tracks[j], tag)
    ensures r.Some? ==> exists i :: 0 <= i < |tracks| && tracks[i] == r.value && Matches(tracks[i], tag) &&
                                    (forall j :: 0 <= j < i ==> !Matches(tracks[j], tag))
  {
    match FindMatch(tracks, tag)
    case None => None
    case Some(i) => Some(tracks[i])
  }

  /** The selection mode of the command line; `Auto` is neither manual nor
      middle. */
  datatype Mode = Auto | Middle | Manual
  {
    predicate IsManual() { this == Manual }
    predicate IsMiddle() { this == Middle }
  }

  /** What the selection prompt gave: the index of an item, a quit with `q`,
      or a prompt failure. */
  datatype UserPick = Chose(index: nat) | Quit | PromptFailed

  /** The prompt lists exactly the tracks, so a chosen index is one of
      theirs. */
  predicate PickInRange(pick: UserPick, tracks: seq<TrackInfo>)
  {
    pick.Chose? ==> pick.index < |tracks|
  }

  /** `select_track_by_user`, with the prompt's outcome given. */
  function SelectTrackByUser(tracks: seq<TrackInfo>, pick: UserPick): (r: Result<Option<TrackInfo>, AppError>)
    requires PickInRange(pick, tracks)
    ensures r.Success? && r.value.Some? ==> r.value.value in tracks
  {
    match pick
    case Chose(i) => Success(Some(tracks[i]))
    case Quit => Success(None)
    case PromptFailed => Failure(SelectFailed)
  }

  /** The track selection in `main`. */
  function SelectTrack(mode: Mode, tracks: seq<TrackInfo>, tag: Tag, pick: UserPick): (r: Result<Option<TrackInfo>, AppError>)
    requires Complete(tag) && PickInRange(pick, tracks)
    ensures r.Success? && r.value.Some? ==> r.value.value in tracks
  {
    if mode.IsManual() then SelectTrackByUser(tracks, pick)
    else
      var track := SelectTrackByIdentity(tracks, tag);
      if track.Some? then Success(track)
      else if mode.IsMiddle() then SelectTrackByUser(tracks, pick)
      else Success(None)
  }

  /** Manual mode always asks the user, even when a track matches. */
  lemma SelectManual(tracks: seq<TrackInfo>, tag: Tag, pick: UserPick)
    requires Complete(tag) && PickInRange(pick, tracks)
    ensures SelectTrack(Manual, tracks, tag, pick) == SelectTrackByUser(tracks, pick)
  {
  }

  /** Outside manual mode a matching track wins and the user is not asked. */
  lemma SelectIdentityWins(mode: Mode, tracks: seq<TrackInfo>, tag: Tag, pick: UserPick, i: nat)
    requires Complete(tag) && PickInRange(pick, tracks)
    requires mode != Manual
    requires i < |tracks| && Matches(tracks[i], tag)
    ensures SelectTrack(mode, tracks, tag, pick) == Success(SelectTrackByIdentity(tracks, tag))
    ensures SelectTrackByIdentity(tracks, tag).Some?
  {
  }

  /** With no matching track, middle mode falls back to the user's pick and
      automatic mode selects nothing. */
  lemma SelectNoMatch(tracks: seq<TrackInfo>, tag: Tag, pick: UserPick)
    requires Complete(tag) && PickInRange(pick, tracks)
    requires forall j :: 0 <= j < |tracks| ==> !Matches(tracks[j], tag)
    ensures SelectTrack(Middle, tracks, tag, pick) == SelectTrackByUser(tracks, pick)
    ensures SelectTrack(Auto, tracks, tag, pick) == Success(None)
  {
  }
}
