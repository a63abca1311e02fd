/**
 * The Netease Cloud Music adapter (NeteaseCloudMusicApi): a track id that is either a song id
 * or `pid=` followed by a radio program id, and the playback URL of a song.
 *
 * The API proxy's JSON documents are parameters, as functions of the id the request names;
 * a missing field or a JSON null is None. Reading a missing field with `!` throws, which the
 * model shows as an error result.
 */
module Netease {
  import opened Wrappers
  import opened Text
  import opened MusicTypes

  const ProgramPrefix: string := "pid="
  const UnknownSong: string := "未知歌曲"
  const UnknownArtist: string := "未知艺术家"
  const Success: int := 200

  datatype NeteaseError =
    | ProgramUnavailable     // 无法获取DJ节目详情: code is not 200 or there is no program
    | NoMainTrack            // 响应中未找到 'mainTrackId'
    | SongUnavailable        // 无法获取音乐: code is not 200 or songs is empty
    | MissingField           // a field read with `!` is absent: the read throws
    | NoPlayableUrl          // Unable to get playable music: code is not 200

  /** Every name present, in order; None as soon as one is missing (its `!` read throws). */
  function AllPresent(names: seq<Option<string>>): (r: Option<seq<string>>)
    ensures r.Some? <==> forall k :: 0 <= k < |names| ==> names[k].Some?
    ensures r.Some? ==> |r.value| == |names| && forall k :: 0 <= k < |names| ==> r.value[k] == names[k].value
    decreases |names|
  {
    if names == [] then Some([])
    else if names[0].None? then None
    else match AllPresent(names[1..])
      case None => None
      case Some(rest) => Some([names[0].value] + rest)
  }

  // ------------------------------------------------------------------ GetMusicByIdAsync

  /** The program id of a `pid=` track id (lines 178-181), an ordinal prefix test here. */
  function ProgramId(idInput: string): (r: Option<string>)
    ensures r.Some? <==> StartsWith(idInput, ProgramPrefix)
    ensures r.Some? ==> ProgramPrefix + r.value == idInput
  {
    if StartsWith(idInput, ProgramPrefix) then
      assert idInput == idInput[..|ProgramPrefix|] + idInput[|ProgramPrefix|..];
      Some(idInput[|ProgramPrefix|..])
    else None
  }

  /** Prefixing a program id and reading it back gives the program id. */
  lemma ProgramIdRoundTrip(programId: string)
    ensures ProgramId(ProgramPrefix + programId) == Some(programId)
  {
    assert (ProgramPrefix + programId)[..|ProgramPrefix|] == ProgramPrefix;
  }

  datatype MainSong = MainSong(name: Option<string>, artists: Option<seq<Option<string>>>)

  datatype Program = Program(mainTrackId: Option<int>, mainSong: Option<MainSong>)

  /** `/dj/program/detail`. */
  datatype ProgramDetail = ProgramDetail(code: Option<int>, program: Option<Program>)

  /** `program.mainSong.artists`, with the placeholder when it is missing or empty (lines 217-227). */
  function ProgramArtists(song: Option<MainSong>): (r: Option<seq<string>>)
    ensures (song.None? || song.value.artists.None? || |song.value.artists.value| == 0) ==> r == Some([UnknownArtist])
    ensures song.Some? && song.value.artists.Some? && |song.value.artists.value| > 0 ==>
      r == AllPresent(song.value.artists.value)
    ensures r.Some? ==> |r.value| >= 1
  {
    if song.Some? && song.value.artists.Some? && |song.value.artists.value| > 0 then
      AllPresent(song.value.artists.value)
    else Some([UnknownArtist])
  }

  /** The program path (lines 183-231): the program's main track stands for it. */
  function MusicFromProgram(detail: ProgramDetail): (r: Result<Music, NeteaseError>)
    ensures (detail.code != Some(Success) || detail.program.None?) ==> r == Err(ProgramUnavailable)
    ensures detail.code == Some(Success) && detail.program.Some? && detail.program.value.mainTrackId.None? ==>
      r == Err(NoMainTrack)
    ensures r.Ok? ==>
      && detail.code == Some(Success) && detail.program.Some?
      && var p := detail.program.value;
      && p.mainTrackId.Some? && Int64Min <= p.mainTrackId.value <= Int64Max
      && r.value.id == IntToString(p.mainTrackId.value)
      && r.value.name == (if p.mainSong.None? || p.mainSong.value.name.None? then UnknownSong else p.mainSong.value.name.value)
      && ProgramArtists(p.mainSong) == Some(r.value.artists)
      && |r.value.artists| >= 1
    ensures r.Ok? <==>
      && detail.code == Some(Success) && detail.program.Some?
      && detail.program.value.mainTrackId.Some?
      && Int64Min <= detail.program.value.mainTrackId.value <= Int64Max
      && ProgramArtists(detail.program.value.mainSong).Some?
    ensures detail.code == Some(Success) && detail.program.Some? && detail.program.value.mainTrackId.Some? ==>
      (!(Int64Min <= detail.program.value.mainTrackId.value <= Int64Max) ==> r == Err(MissingField))
  {
    if detail.code != Some(Success) || detail.program.None? then Err(ProgramUnavailable)
    else
      var p := detail.program.value;
      if p.mainTrackId.None? then Err(NoMainTrack)
      // GetValue<long> throws on a number outside the 64-bit range
      else if !(Int64Min <= p.mainTrackId.value <= Int64Max) then Err(MissingField)
      else
        var name := if p.mainSong.None? || p.mainSong.value.name.None? then UnknownSong else p.mainSong.value.name.value;
        match ProgramArtists(p.mainSong)
        case None => Err(MissingField)
        case Some(artists) => Ok(Music(IntToString(p.mainTrackId.value), name, artists))
  }

  datatype DetailSong = DetailSong(name: Option<string>, artists: Option<seq<Option<string>>>)

  /** `/song/detail`. */
  datatype SongDetail = SongDetail(code: Option<int>, songs: Option<seq<Option<DetailSong>>>)

  /** The song path (lines 233-243): the input id is kept, the first song gives the rest. */
  function MusicFromDetail(idInput: string, detail: SongDetail): (r: Result<Music, NeteaseError>)
    ensures detail.code != Some(Success) || (detail.songs.Some? && |detail.songs.value| == 0) ==>
      r == Err(SongUnavailable)
    ensures r.Ok? <==>
      && detail.code == Some(Success) && detail.songs.Some? && |detail.songs.value| > 0
      && detail.songs.value[0].Some? && detail.songs.value[0].value.name.Some?
      && detail.songs.value[0].value.artists.Some?
      && AllPresent(detail.songs.value[0].value.artists.value).Some?
    ensures r.Ok? ==>
      && r.value.id == idInput
      && r.value.name == detail.songs.value[0].value.name.value
      && Some(r.value.artists) == AllPresent(detail.songs.value[0].value.artists.value)
  {
    if detail.code != Some(Success) || (detail.songs.Some? && |detail.songs.value| == 0) then Err(SongUnavailable)
    // `j["songs"]![0]!` on a missing songs array throws
    else if detail.songs.None? || detail.songs.value[0].None? then Err(MissingField)
    else
      var song := detail.songs.value[0].value;
      if song.name.None? || song.artists.None? then Err(MissingField)
      else match AllPresent(song.artists.value)
        case None => Err(MissingField)
        case Some(artists) => Ok(Music(idInput, song.name.value, artists))
  }

  /**
   * GetMusicByIdAsync (lines 174-245). `programs(p)` is the program detail of program `p`
   * and `songs(i)` the song detail of song `i`.
   */
  function GetMusicById(idInput: string, programs: string -> ProgramDetail, songs: string -> SongDetail)
    : (r: Result<Music, NeteaseError>)
    ensures ProgramId(idInput).Some? ==> r == MusicFromProgram(programs(ProgramId(idInput).value))
    ensures ProgramId(idInput).None? ==> r == MusicFromDetail(idInput, songs(idInput))
  {
    match ProgramId(idInput)
    case Some(programId) => MusicFromProgram(programs(programId))
    case None => MusicFromDetail(idInput, songs(idInput))
  }

  /**
   * The id a program resolves to is the decimal main track id: it parses back to that
   * number, and it has no `pid=` prefix, so resolving it again looks up that song.
   */
  lemma ProgramResolvesToSong(programId: string, programs: string -> ProgramDetail, songs: string -> SongDetail)
    requires GetMusicById(ProgramPrefix + programId, programs, songs).Ok?
    ensures var m := GetMusicById(ProgramPrefix + programId, programs, songs).value;
      && programs(programId).program.Some? && programs(programId).program.value.mainTrackId.Some?
      && ParseInteger(m.id, Int64Min, Int64Max) == programs(programId).program.value.mainTrackId
      && GetMusicById(m.id, programs, songs) == MusicFromDetail(m.id, songs(m.id))
  {
    ProgramIdRoundTrip(programId);
    var m := GetMusicById(ProgramPrefix + programId, programs, songs).value;
    var t := programs(programId).program.value.mainTrackId.value;
    assert m.id == IntToString(t);
    ParseIntegerRoundTrip(t, Int64Min, Int64Max);
    IntToStringChars(t);
    assert !IsAsciiDigit('p');
    assert m.id[0] != 'p';
  }

  // ------------------------------------------------------------------ GetPlayableMusicAsync

  datatype UrlEntry = UrlEntry(url: Option<string>, time: Option<int>)

  /** `/song/url`. */
  datatype SongUrl = SongUrl(code: Option<int>, data: Option<seq<Option<UrlEntry>>>)

  /**
   * GetPlayableMusicAsync (lines 153-162): the first link with `http` replaced by `https`, and
   * its `time` as the length in milliseconds.
   */
  function GetPlayable(music: Music, resp: SongUrl): (r: Result<PlayableMusic, NeteaseError>)
    ensures resp.code.Some? && resp.code != Some(Success) ==> r == Err(NoPlayableUrl)
    ensures r.Ok? <==>
      && resp.code == Some(Success) && resp.data.Some? && |resp.data.value| > 0 && resp.data.value[0].Some?
      && resp.data.value[0].value.url.Some? && resp.data.value[0].value.time.Some?
      && Int64Min <= resp.data.value[0].value.time.value <= Int64Max
    ensures r.Ok? ==> r.value == Direct(music, ReplaceAll(resp.data.value[0].value.url.value, "http", "https"),
                                        resp.data.value[0].value.time.value)
  {
    // `(int)j["code"]!` throws on a missing code
    if resp.code.None? then Err(MissingField)
    else if resp.code != Some(Success) then Err(NoPlayableUrl)
    else if resp.data.None? || |resp.data.value| == 0 || resp.data.value[0].None? then Err(MissingField)
    else
      var entry := resp.data.value[0].value;
      if entry.url.None? || entry.time.None? || !(Int64Min <= entry.time.value <= Int64Max) then Err(MissingField)
      else Ok(Direct(music, ReplaceAll(entry.url.value, "http", "https"), entry.time.value))
  }

  /** An `http://` link is served as `https://`; an `https://` link comes out as `httpss://`. */
  lemma PlayableScheme(music: Music, rest: string, time: int)
    requires forall i :: 0 <= i <= |rest| ==> !OccursAt(rest, "http", i)
    requires Int64Min <= time <= Int64Max
    ensures GetPlayable(music, SongUrl(Some(Success), Some([Some(UrlEntry(Some("http://" + rest), Some(time)))]))).value.url
      == "https://" + rest
    ensures GetPlayable(music, SongUrl(Some(Success), Some([Some(UrlEntry(Some("https://" + rest), Some(time)))]))).value.url
      == "httpss://" + rest
  {
    HttpUpgrade(rest);
    ReplaceAllNoOccurrence(rest, "http", "https");
  }
}
