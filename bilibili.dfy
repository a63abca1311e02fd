/**
 * The Bilibili adapter (BilibiliApi): video ids of the form `BV…` or `BV…@P`, the audio
 * stream chosen for playback, and the videos of a favourites folder.
 *
 * Each HTTP GET is a function parameter from the request URL to the deserialised JSON
 * document (None for a `null` document); the model is the decision logic around it.
 */
module Bilibili {
  import opened Wrappers
  import opened Text
  import opened MusicTypes

  /** Longest video accepted for playback, in seconds. */
  const MaxDurationSeconds: int := 1200
  const MirrorHost: string := "upos-sz-mirrorhw.bilivideo.com"
  const Referer: string := "https://www.bilibili.com"
  const ExpiredTitle: string := "已失效视频"
  /** `type` of a favourites entry that is a video. */
  const VideoType: int := 2

  datatype BiliError =
    | InvalidPart(text: string)     // 无效的分P号
    | NoVideoInfo                   // 无法获取音乐信息
    | NoParts                       // 该视频没有分P内容
    | PartOutOfRange(p: int, count: nat)
    | MalformedId                   // the id has no ',' (IndexOutOfRangeException)
    | NoPlayUrl                     // Unable to get playable music
    | TooLong(duration: int)        // 音频时长过长
    | NoAudio                       // no audio stream (First() on an empty or missing list)
    | NoPlaylist                    // Unable to get playlist musics
    | NoUploader                    // NullReferenceException on a missing owner or upper record

  // ------------------------------------------------------------------ GetMusicByIdAsync

  datatype VideoPart = VideoPart(cid: int)
  /** `owner` is the name in the `owner` record, or None when that record is missing. */
  datatype VideoData = VideoData(title: string, owner: Option<string>, pages: Option<seq<VideoPart>>)
  datatype ViewResponse = ViewResponse(code: int, data: Option<VideoData>)

  /** `BV…` alone is part 1; `BV…@P` names part P, which must be an `int` of at least 1. */
  function ParseVideoId(id: string): (r: Result<(string, int), BiliError>)
    ensures '@' !in id ==> r == Ok((id, 1))
    ensures '@' in id ==> (r.Ok? ==> r.value.0 == Split(id, '@')[0] && r.value.1 >= 1)
    ensures '@' in id && r.Ok? ==> ParseInteger(Split(id, '@')[1], Int32Min, Int32Max) == Some(r.value.1)
    ensures '@' in id ==> (r.Err? <==> ParseInteger(Split(id, '@')[1], Int32Min, Int32Max).None?
                                       || ParseInteger(Split(id, '@')[1], Int32Min, Int32Max).value < 1)
  {
    if '@' in id then
      var parts := Split(id, '@');
      match ParseInteger(parts[1], Int32Min, Int32Max)
      case None => Err(InvalidPart(parts[1]))
      case Some(p) => if p < 1 then Err(InvalidPart(parts[1])) else Ok((parts[0], p))
    else
      Ok((id, 1))
  }

  /** `bvid@P` with an '@'-free bvid and a positive P parses back to the two parts. */
  lemma ParseVideoIdRoundTrip(bvid: string, p: int)
    requires '@' !in bvid && 1 <= p <= Int32Max
    ensures ParseVideoId(bvid + "@" + IntToString(p)) == Ok((bvid, p))
  {
    var s := IntToString(p);
    IntToStringChars(p);
    assert '@' !in s;
    assert bvid + "@" + s == bvid + ['@'] + s;
    assert (bvid + "@" + s)[|bvid|] == '@';
    SplitAtFirstSeparator(bvid, '@', s);
    SplitNoSeparator(s, '@');
    ParseIntegerRoundTrip(p, Int32Min, Int32Max);
  }

  function ViewUrl(bvid: string): string {
    "https://api.bilibili.com/x/web-interface/view?bvid=" + bvid
  }

  /**
   * GetMusicByIdAsync (lines 81-115): the id `bvid,cid` of the chosen part, the title, and
   * the uploader as the only artist.
   */
  function GetMusicById(id: string, view: string -> Option<ViewResponse>): (r: Result<Music, BiliError>)
    ensures r.Ok? ==> ParseVideoId(id).Ok?
    ensures r.Ok? ==>
      var (bvid, p) := ParseVideoId(id).value;
      && view(ViewUrl(bvid)).Some? && view(ViewUrl(bvid)).value.code == 0
      && view(ViewUrl(bvid)).value.data.Some?
      && var d := view(ViewUrl(bvid)).value.data.value;
      && d.pages.Some? && 1 <= p <= |d.pages.value| && d.owner.Some?
      && r.value == Music(bvid + "," + IntToString(d.pages.value[p - 1].cid), d.title, [d.owner.value])
    ensures ParseVideoId(id).Err? ==> r == Err(ParseVideoId(id).error)
    ensures ParseVideoId(id).Ok? ==>
      var (bvid, p) := ParseVideoId(id).value;
      var v := view(ViewUrl(bvid));
      if v.None? || v.value.code != 0 || v.value.data.None? then r == Err(NoVideoInfo)
      else
        var pages := v.value.data.value.pages;
        if pages.None? || |pages.value| == 0 then r == Err(NoParts)
        else if p > |pages.value| then r == Err(PartOutOfRange(p, |pages.value|))
        else if v.value.data.value.owner.None? then r == Err(NoUploader)
        else r.Ok?
  {
    match ParseVideoId(id)
    case Err(e) => Err(e)
    case Ok((bvid, p)) =>
      match view(ViewUrl(bvid))
      case None => Err(NoVideoInfo)
      case Some(j) =>
        if j.code != 0 || j.data.None? then Err(NoVideoInfo)
        else
          var pages := j.data.value.pages;
          if pages.None? || |pages.value| == 0 then Err(NoParts)
          else if p - 1 >= |pages.value| then Err(PartOutOfRange(p, |pages.value|))
          else if j.data.value.owner.None? then Err(NoUploader)
          else
            var cid := IntToString(pages.value[p - 1].cid);
            Ok(Music(bvid + "," + cid, j.data.value.title, [j.data.value.owner.value]))
  }

  // ------------------------------------------------------------------ GetPlayableMusicAsync

  datatype Audio = Audio(id: int, baseUrl: Url)
  datatype Dash = Dash(duration: int, audio: Option<seq<Audio>>)
  datatype PlayUrlResponse = PlayUrlResponse(code: int, dash: Option<Dash>)

  /** The ids parsed by GetPlayableMusicAsync: the two first comma-separated parts. */
  function PlayIds(musicId: string): (r: Option<(string, string)>)
    ensures r.None? <==> ',' !in musicId
    ensures r.Some? ==> r.value == (Split(musicId, ',')[0], Split(musicId, ',')[1])
  {
    var ids := Split(musicId, ',');
    if ',' in musicId then
      Some((ids[0], ids[1]))
    else
      SplitNoSeparator(musicId, ',');
      None
  }

  /** The id GetMusicById builds is split back into its bvid and cid. */
  lemma PlayIdsRoundTrip(bvid: string, cid: int)
    requires ',' !in bvid
    ensures PlayIds(bvid + "," + IntToString(cid)) == Some((bvid, IntToString(cid)))
  {
    var c := IntToString(cid);
    IntToStringChars(cid);
    assert ',' !in c;
    assert bvid + "," + c == bvid + [','] + c;
    assert (bvid + "," + c)[|bvid|] == ',';
    SplitAtFirstSeparator(bvid, ',', c);
    SplitNoSeparator(c, ',');
  }

  /** A track GetMusicById resolved is played from the same video, when its bvid has no ','. */
  lemma ResolvedIdPlaysSameVideo(id: string, view: string -> Option<ViewResponse>)
    requires GetMusicById(id, view).Ok?
    requires ',' !in ParseVideoId(id).value.0
    ensures PlayIds(GetMusicById(id, view).value.id).Some?
    ensures PlayIds(GetMusicById(id, view).value.id).value.0 == ParseVideoId(id).value.0
  {
    var (bvid, p) := ParseVideoId(id).value;
    var d := view(ViewUrl(bvid)).value.data.value;
    PlayIdsRoundTrip(bvid, d.pages.value[p - 1].cid);
  }

  function PlayUrl(bvid: string, cid: string): string {
    "https://api.bilibili.com/x/player/playurl?bvid=" + bvid + "&cid=" + cid + "&fnval=16"
  }

  /** `OrderBy(x => x.id).First()`: the first stream with the smallest id (the sort is stable). */
  function LowestIdIndex(audio: seq<Audio>): (k: nat)
    requires |audio| > 0
    ensures k < |audio|
    ensures forall j :: 0 <= j < |audio| ==> audio[k].id <= audio[j].id
    ensures forall j :: 0 <= j < k ==> audio[j].id > audio[k].id
    decreases |audio|
  {
    if |audio| == 1 then 0
    else
      var k := LowestIdIndex(audio[1..]) + 1;
      if audio[0].id <= audio[k].id then 0 else k
  }

  /**
   * GetPlayableMusicAsync (lines 122-160): the relay is used, the lowest-id audio stream is
   * fetched from the mirror host, and `nowSeconds` (the Unix time) only makes the relay URL
   * unique.
   */
  function GetPlayable(music: Music, playUrl: string -> Option<PlayUrlResponse>, nowSeconds: int)
    : (r: Result<PlayableMusic, BiliError>)
    ensures r.Ok? ==>
      && PlayIds(music.id).Some?
      && playUrl(PlayUrl(PlayIds(music.id).value.0, PlayIds(music.id).value.1)).Some?
      && var resp := playUrl(PlayUrl(PlayIds(music.id).value.0, PlayIds(music.id).value.1)).value;
      && resp.code == 0 && resp.dash.Some?
      && resp.dash.value.duration <= MaxDurationSeconds
      && resp.dash.value.audio.Some? && |resp.dash.value.audio.value| > 0
      && r.value == PlayableMusic(music, "/musicproxy?timestamp=" + IntToString(nowSeconds),
           WrapInt64(resp.dash.value.duration * 1000), true,
           Some(resp.dash.value.audio.value[LowestIdIndex(resp.dash.value.audio.value)].baseUrl.(host := MirrorHost)),
           Some(Referer))
    ensures PlayIds(music.id).None? ==> r == Err(MalformedId)
  {
    match PlayIds(music.id)
    case None => Err(MalformedId)
    case Some((bvid, cid)) =>
      match playUrl(PlayUrl(bvid, cid))
      case None => Err(NoPlayUrl)
      case Some(j) =>
        if j.code != 0 || j.dash.None? then Err(NoPlayUrl)
        else if j.dash.value.duration > MaxDurationSeconds then Err(TooLong(j.dash.value.duration))
        else match j.dash.value.audio
          case None => Err(NoAudio)
          case Some(audio) =>
            if |audio| == 0 then Err(NoAudio)
            else
              var chosen := audio[LowestIdIndex(audio)].baseUrl;
              Ok(PlayableMusic(music, "/musicproxy?timestamp=" + IntToString(nowSeconds),
                               WrapInt64(j.dash.value.duration * 1000), true,
                               Some(chosen.(host := MirrorHost)), Some(Referer)))
  }

  /** Durations longer than twenty minutes are refused; accepted ones give their length in milliseconds. */
  lemma PlayableLength(music: Music, playUrl: string -> Option<PlayUrlResponse>, nowSeconds: int)
    requires PlayIds(music.id).Some?
    requires var resp := playUrl(PlayUrl(PlayIds(music.id).value.0, PlayIds(music.id).value.1));
      resp.Some? && resp.value.code == 0 && resp.value.dash.Some?
    ensures var d := playUrl(PlayUrl(PlayIds(music.id).value.0, PlayIds(music.id).value.1)).value.dash.value;
      && (d.duration > MaxDurationSeconds ==> GetPlayable(music, playUrl, nowSeconds) == Err(TooLong(d.duration)))
      && (d.duration <= MaxDurationSeconds && d.audio.Some? && |d.audio.value| > 0 ==>
            GetPlayable(music, playUrl, nowSeconds).Ok?
            && GetPlayable(music, playUrl, nowSeconds).value.needProxy)
      && (Int64Min <= d.duration * 1000 && d.duration <= MaxDurationSeconds && d.audio.Some? && |d.audio.value| > 0 ==>
            GetPlayable(music, playUrl, nowSeconds).value.lengthMs == d.duration * 1000)
  {
    var d := playUrl(PlayUrl(PlayIds(music.id).value.0, PlayIds(music.id).value.1)).value.dash.value;
    if Int64Min <= d.duration * 1000 && d.duration <= MaxDurationSeconds {
      assert d.duration * 1000 <= Int64Max;
    }
  }

  // ------------------------------------------------------------------ GetMusicsByPlaylistAsync

  /** `upper` is the name in the `upper` record, or None when that record is missing. */
  datatype Media = Media(bvid: string, title: string, mediaType: int, upper: Option<string>)
  datatype FavData = FavData(medias: Option<seq<Media>>)
  datatype FavResponse = FavResponse(code: int, data: Option<FavData>)

  function FavUrl(id: string, offset: int): string
    requires Int32Min <= offset <= Int32Max
  {
    "https://api.bilibili.com/x/v3/fav/resource/list?platform=web&media_id=" + id + "&ps=10&pn=" + IntToString(PageNumber(offset))
  }

  predicate Playable(m: Media) {
    m.title != ExpiredTitle && m.mediaType == VideoType
  }

  /** Every entry the Where keeps has an uploader record, so the Select reads no missing one. */
  predicate UploadersPresent(medias: seq<Media>) {
    forall k :: 0 <= k < |medias| && Playable(medias[k]) ==> medias[k].upper.Some?
  }

  function MediaMusic(m: Media): Music
    requires m.upper.Some?
  {
    Music(m.bvid, m.title, [m.upper.value])
  }

  /** The Where/Select of lines 195-196, in order. */
  function FavoriteMusics(medias: seq<Media>): (r: seq<Music>)
    requires UploadersPresent(medias)
    ensures |r| <= |medias|
    ensures forall k :: 0 <= k < |r| ==> r[k].name != ExpiredTitle && |r[k].artists| == 1
    decreases |medias|
  {
    if medias == [] then []
    else (if Playable(medias[0]) then [MediaMusic(medias[0])] else []) + FavoriteMusics(medias[1..])
  }

  /** Each entry is kept or dropped on its own, so pages of entries concatenate. */
  lemma {:induction false} FavoriteMusicsConcat(a: seq<Media>, b: seq<Media>)
    requires UploadersPresent(a) && UploadersPresent(b)
    ensures UploadersPresent(a + b)
    ensures FavoriteMusics(a + b) == FavoriteMusics(a) + FavoriteMusics(b)
    decreases |a|
  {
    if a != [] {
      assert (a + b)[0] == a[0] && (a + b)[1..] == a[1..] + b;
      assert UploadersPresent(a[1..]) by {
        forall k | 0 <= k < |a[1..]| && Playable(a[1..][k]) ensures a[1..][k].upper.Some? {
          assert a[1..][k] == a[k + 1];
        }
      }
      FavoriteMusicsConcat(a[1..], b);
      assert UploadersPresent(a + b) by {
        forall k | 0 <= k < |a + b| && Playable((a + b)[k]) ensures (a + b)[k].upper.Some? {
          if k == 0 {
          } else {
            assert (a + b)[k] == (a[1..] + b)[k - 1];
          }
        }
      }
      var head := if Playable(a[0]) then [MediaMusic(a[0])] else [];
      assert FavoriteMusics(a + b) == head + (FavoriteMusics(a[1..]) + FavoriteMusics(b));
      assert head + (FavoriteMusics(a[1..]) + FavoriteMusics(b)) == (head + FavoriteMusics(a[1..])) + FavoriteMusics(b);
    } else {
      assert a + b == b;
    }
  }

  /** One entry is kept exactly when it is a video that has not expired. */
  lemma FavoriteMusicsSingle(m: Media)
    requires Playable(m) ==> m.upper.Some?
    ensures FavoriteMusics([m]) == if Playable(m) then [MediaMusic(m)] else []
  {
    assert [m][1..] == [];
  }

  /** GetMusicsByPlaylistAsync (lines 186-197). */
  function GetMusicsByPlaylist(id: string, offset: int, fav: string -> Option<FavResponse>)
    : (r: Result<seq<Music>, BiliError>)
    requires Int32Min <= offset <= Int32Max
    ensures r.Err? <==> (
      || fav(FavUrl(id, offset)).None? || fav(FavUrl(id, offset)).value.code != 0
      || (var d := fav(FavUrl(id, offset)).value.data;
          d.Some? && d.value.medias.Some? && !UploadersPresent(d.value.medias.value)))
    ensures r.Ok? ==> var d := fav(FavUrl(id, offset)).value.data;
      r.value == if d.None? || d.value.medias.None? then [] else FavoriteMusics(d.value.medias.value)
    ensures r.Err? && fav(FavUrl(id, offset)).Some? && fav(FavUrl(id, offset)).value.code == 0 ==> r == Err(NoUploader)
  {
    match fav(FavUrl(id, offset))
    case None => Err(NoPlaylist)
    case Some(j) =>
      if j.code != 0 then Err(NoPlaylist)
      else if j.data.None? || j.data.value.medias.None? then Ok([])
      else if !UploadersPresent(j.data.value.medias.value) then Err(NoUploader)
      else Ok(FavoriteMusics(j.data.value.medias.value))
  }
}
