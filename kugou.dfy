/**
 * The KuGou adapter (KuGouMusicApi): a track id that is either a 32-character file hash or a
 * search keyword, the playback URL of a hash, the tracks of a playlist, and the one-entry
 * playlist list built from a playlist id.
 *
 * Each method's parsed JSON document is a parameter: a missing field and a JSON null are
 * None. A value of the wrong type is None too, although `GetValue` throws on it, so where the
 * code falls back on a missing value the model takes the fallback. The request URLs embed the
 * login token and the current time and are not modelled.
 */
module KuGou {
  import opened Wrappers
  import opened Text
  import opened MusicTypes

  const HashLength: nat := 32
  const UnknownSong: string := "未知歌曲"
  const UnknownLanguage: string := "未知语言/歌手"
  const UnknownSinger: string := "未知歌手"
  const PlaylistNamePrefix: string := "歌单ID: "

  datatype KuGouError =
    | BlankId              // ArgumentException: 歌曲Hash (id_hash) 不能为空
    | StatusNotOk          // status is not 1 (or error_code / error_msg is set)
    | NoSearchResult       // 未能通过关键词 … 找到任何歌曲
    | NullFirstResult      // 搜索结果中的第一首歌数据为空
    | NoFileHash           // 未能从搜索结果中提取歌曲的FileHash
    | NoUrl                // 缺少 'url' 数组或数组为空
    | EmptyUrl             // 'url' 数组中的第一个链接为空
    | BlankPlaylistId      // ArgumentException: 歌单ID (userIdentifier) 不能为空
    | BadTimeLength        // timeLength is not a 64-bit integer: GetValue<long> throws

  predicate IsNullOrEmpty(s: Option<string>) {
    s.None? || s.value == ""
  }

  // ------------------------------------------------------------------ GetMusicByIdAsync

  predicate IsUpperOrDigit(c: char) {
    ('A' <= c <= 'Z') || IsAsciiDigit(c)
  }

  /** The hash test of line 350 for ASCII text: 32 characters, each an upper-case letter or a digit. */
  predicate IsLikelyHash(id: string) {
    |id| == HashLength && forall i :: 0 <= i < |id| ==> IsUpperOrDigit(id[i])
  }

  /** `/song/url` as the hash path reads it. */
  datatype HashInfo = HashInfo(status: Option<int>, fileName: Option<string>, language: Option<string>)

  /** The first entry of `data.lists` of `/search`. */
  datatype SearchSong = SearchSong(
    fileHash: Option<string>,
    oriSongName: Option<string>,
    fileName: Option<string>,
    singers: Option<seq<Option<string>>>,   // `Singers` as an array of `name`s, when it is one
    singerName: Option<string>)

  datatype SearchResult = SearchResult(
    status: Option<int>,
    errorCode: Option<int>,
    errorMsg: Option<string>,
    lists: Option<seq<Option<SearchSong>>>)

  /** The names of a `Singers` array that are present and non-empty, in order. */
  function PresentNames(names: seq<Option<string>>): (r: seq<string>)
    ensures |r| <= |names|
    ensures forall k :: 0 <= k < |r| ==> r[k] != ""
    decreases |names|
  {
    if names == [] then []
    else (if IsNullOrEmpty(names[0]) then [] else [names[0].value]) + PresentNames(names[1..])
  }

  /** PresentNames keeps exactly the non-empty names that are there. */
  lemma {:induction false} PresentNamesMembers(names: seq<Option<string>>, s: string)
    ensures s in PresentNames(names) <==> s != "" && Some(s) in names
    decreases |names|
  {
    if names != [] {
      PresentNamesMembers(names[1..], s);
      assert names == [names[0]] + names[1..];
    }
  }

  /** The artists of a search hit (lines 433-448); never empty, never an empty name. */
  function SearchArtists(song: SearchSong): (artists: seq<string>)
    ensures |artists| >= 1 && forall k :: 0 <= k < |artists| ==> artists[k] != ""
    ensures song.singers.Some? && |song.singers.value| > 0 && PresentNames(song.singers.value) != [] ==>
      artists == PresentNames(song.singers.value)
    ensures song.singers.Some? && |song.singers.value| > 0 && PresentNames(song.singers.value) == [] ==>
      artists == [UnknownSinger]
    ensures (song.singers.None? || |song.singers.value| == 0) ==>
      artists == if IsNullOrEmpty(song.singerName) then [UnknownSinger] else [song.singerName.value]
  {
    if song.singers.Some? && |song.singers.value| > 0 then
      var names := PresentNames(song.singers.value);
      if names == [] then [UnknownSinger] else names
    else if IsNullOrEmpty(song.singerName) then [UnknownSinger]
    else [song.singerName.value]
  }

  /** A Singers array whose names are all missing or empty yields no names. */
  lemma {:induction false} PresentNamesNone(names: seq<Option<string>>)
    requires forall k :: 0 <= k < |names| ==> IsNullOrEmpty(names[k])
    ensures PresentNames(names) == []
    decreases |names|
  {
    if names != [] {
      PresentNamesNone(names[1..]);
    }
  }

  /** A non-empty Singers array whose names are all empty never falls back to SingerName. */
  lemma EmptySingersIgnoreSingerName(song: SearchSong)
    requires song.singers.Some? && |song.singers.value| > 0
    requires forall k :: 0 <= k < |song.singers.value| ==> IsNullOrEmpty(song.singers.value[k])
    ensures SearchArtists(song) == [UnknownSinger]
  {
    PresentNamesNone(song.singers.value);
  }

  /** The hash path (lines 350-393): the id is kept, the name and artists fall back. */
  function MusicFromHash(id: string, info: HashInfo): (r: Result<Music, KuGouError>)
    ensures r.Ok? <==> info.status == Some(1)
    ensures r.Ok? ==> r.value.id == id && r.value.name != "" && |r.value.artists| == 1
    ensures r.Ok? ==> r.value.name == if IsNullOrEmpty(info.fileName) then UnknownSong else info.fileName.value
    ensures r.Ok? ==> r.value.artists == if IsNullOrEmpty(info.language) then [UnknownLanguage] else [info.language.value]
  {
    if info.status != Some(1) then Err(StatusNotOk)
    else
      var name := if IsNullOrEmpty(info.fileName) then UnknownSong else info.fileName.value;
      var artists := if IsNullOrEmpty(info.language) then [UnknownLanguage] else [info.language.value];
      Ok(Music(id, name, artists))
  }

  /** The keyword path (lines 394-459): the first hit's hash becomes the id. */
  function MusicFromSearch(search: SearchResult): (r: Result<Music, KuGouError>)
    ensures r.Ok? ==>
      && search.status == Some(1) && search.errorCode.GetOr(0) == 0 && IsNullOrEmpty(search.errorMsg)
      && search.lists.Some? && |search.lists.value| > 0 && search.lists.value[0].Some?
      && var song := search.lists.value[0].value;
      && song.fileHash.Some? && r.value.id == song.fileHash.value != ""
      && r.value.artists == SearchArtists(song)
      && r.value.name != ""
    ensures r.Ok? <==>
      && search.status == Some(1) && search.errorCode.GetOr(0) == 0 && IsNullOrEmpty(search.errorMsg)
      && search.lists.Some? && |search.lists.value| > 0 && search.lists.value[0].Some?
      && !IsNullOrEmpty(search.lists.value[0].value.fileHash)
    ensures r.Ok? ==>
      var song := search.lists.value[0].value;
      r.value.name == if song.oriSongName.Some? then (if song.oriSongName.value == "" then UnknownSong else song.oriSongName.value)
                      else if IsNullOrEmpty(song.fileName) then UnknownSong else song.fileName.value
    ensures !(search.status == Some(1) && search.errorCode.GetOr(0) == 0 && IsNullOrEmpty(search.errorMsg)) ==>
      r == Err(StatusNotOk)
    ensures search.status == Some(1) && search.errorCode.GetOr(0) == 0 && IsNullOrEmpty(search.errorMsg) ==>
      && ((search.lists.None? || |search.lists.value| == 0) ==> r == Err(NoSearchResult))
      && (search.lists.Some? && |search.lists.value| > 0 && search.lists.value[0].None? ==> r == Err(NullFirstResult))
      && (search.lists.Some? && |search.lists.value| > 0 && search.lists.value[0].Some? ==>
            (IsNullOrEmpty(search.lists.value[0].value.fileHash) ==> r == Err(NoFileHash)))
  {
    if search.status != Some(1) || search.errorCode.GetOr(0) != 0 || !IsNullOrEmpty(search.errorMsg) then
      Err(StatusNotOk)
    else if search.lists.None? || |search.lists.value| == 0 then Err(NoSearchResult)
    else match search.lists.value[0]
      case None => Err(NullFirstResult)
      case Some(song) =>
        // `OriSongName ?? FileName`: only a missing original name falls back to FileName
        var name := if song.oriSongName.Some? then song.oriSongName else song.fileName;
        if IsNullOrEmpty(song.fileHash) then Err(NoFileHash)
        else Ok(Music(song.fileHash.value, if IsNullOrEmpty(name) then UnknownSong else name.value, SearchArtists(song)))
  }

  /** An empty original name is not replaced by FileName: the name becomes the placeholder. */
  lemma EmptyOriginalNameIsUnknown(search: SearchResult, song: SearchSong)
    requires MusicFromSearch(search).Ok? && search.lists.value[0] == Some(song)
    requires song.oriSongName == Some("")
    ensures MusicFromSearch(search).value.name == UnknownSong
  {
  }

  /**
   * GetMusicByIdAsync (lines 341-460). `hashInfo` is the `/song/url` document for the id and
   * `search` the `/search` document for it as a keyword; only the one its path asks for is read.
   */
  function GetMusicById(id: string, hashInfo: HashInfo, search: SearchResult): (r: Result<Music, KuGouError>)
    ensures IsBlank(id) ==> r == Err(BlankId)
    ensures !IsBlank(id) && IsLikelyHash(id) ==> r == MusicFromHash(id, hashInfo)
    ensures !IsBlank(id) && !IsLikelyHash(id) ==> r == MusicFromSearch(search)
    ensures r.Ok? ==> |r.value.artists| >= 1 && r.value.name != ""
  {
    if IsBlank(id) then Err(BlankId)
    else if IsLikelyHash(id) then MusicFromHash(id, hashInfo)
    else MusicFromSearch(search)
  }

  /** A hash is never blank, so it always takes the hash path. */
  lemma HashIsNotBlank(id: string)
    requires IsLikelyHash(id)
    ensures !IsBlank(id)
  {
    assert IsUpperOrDigit(id[0]);
  }

  // ------------------------------------------------------------------ GetPlayableMusicAsync

  /** `/song/url` as GetPlayableMusicAsync reads it: `url` is the array of links, if it is one. */
  datatype SongUrl = SongUrl(status: Option<int>, urls: Option<seq<Option<string>>>, timeLength: Option<int>)

  /** GetPlayableMusicAsync (lines 233-308). */
  function GetPlayable(music: Music, resp: SongUrl): (r: Result<PlayableMusic, KuGouError>)
    ensures r.Ok? <==> resp.status == Some(1) && resp.urls.Some? && |resp.urls.value| > 0
                       && !IsNullOrEmpty(resp.urls.value[0])
                       && Int64Min <= resp.timeLength.GetOr(0) <= Int64Max
    ensures resp.status == Some(1) && (resp.urls.None? || |resp.urls.value| == 0) ==> r == Err(NoUrl)
    ensures r.Ok? ==> r.value == Direct(music, ReplaceAll(resp.urls.value[0].value, "http", "https"),
                                        WrapInt64(resp.timeLength.GetOr(0) * 1000))
  {
    if resp.status != Some(1) then Err(StatusNotOk)
    else if resp.urls.None? || |resp.urls.value| == 0 then Err(NoUrl)
    else if IsNullOrEmpty(resp.urls.value[0]) then Err(EmptyUrl)
    else if !(Int64Min <= resp.timeLength.GetOr(0) <= Int64Max) then Err(BadTimeLength)
    else
      var seconds := resp.timeLength.GetOr(0);
      Ok(Direct(music, ReplaceAll(resp.urls.value[0].value, "http", "https"), WrapInt64(seconds * 1000)))
  }

  /**
   * A missing time length gives a length of 0; an `http://` link is served as `https://`, and
   * an `https://` link comes out as `httpss://`.
   */
  lemma PlayableUrlAndLength(music: Music, rest: string, t: Option<int>)
    requires forall i :: 0 <= i <= |rest| ==> !OccursAt(rest, "http", i)
    requires Int64Min <= t.GetOr(0) <= Int64Max
    ensures GetPlayable(music, SongUrl(Some(1), Some([Some("http://" + rest)]), t)).value.url == "https://" + rest
    ensures GetPlayable(music, SongUrl(Some(1), Some([Some("https://" + rest)]), t)).value.url == "httpss://" + rest
    ensures t.None? ==> GetPlayable(music, SongUrl(Some(1), Some([Some("http://" + rest)]), t)).value.lengthMs == 0
    ensures t.Some? && 0 <= t.value <= Int64Max / 1000 ==>
      GetPlayable(music, SongUrl(Some(1), Some([Some("http://" + rest)]), t)).value.lengthMs == t.value * 1000
  {
    HttpUpgrade(rest);
    ReplaceAllNoOccurrence(rest, "http", "https");
  }

  // ------------------------------------------------------------------ GetMusicsByPlaylistAsync

  /** One entry of `data.songs` of `/playlist/track/all`. */
  datatype PlaylistSong = PlaylistSong(hash: Option<string>, name: Option<string>,
                                       singerInfo: Option<seq<Option<string>>>)

  datatype PlaylistTracks = PlaylistTracks(status: Option<int>, errorCode: Option<int>,
                                           songs: Option<seq<Option<PlaylistSong>>>)

  /** `name ?? "未知歌手"` for each singer, then the empty names dropped. */
  function SingerNames(infos: seq<Option<string>>): (r: seq<string>)
    ensures |r| <= |infos|
    ensures forall k :: 0 <= k < |r| ==> r[k] != ""
    decreases |infos|
  {
    if infos == [] then []
    else
      var n := infos[0].GetOr(UnknownSinger);
      (if n == "" then [] else [n]) + SingerNames(infos[1..])
  }

  /** A name is listed exactly when it is a non-empty present name, or 未知歌手 standing for a missing one. */
  lemma {:induction false} SingerNamesMembers(infos: seq<Option<string>>, s: string)
    ensures s in SingerNames(infos) <==> s != "" && (Some(s) in infos || (s == UnknownSinger && None in infos))
    decreases |infos|
  {
    if infos != [] {
      SingerNamesMembers(infos[1..], s);
      assert infos == [infos[0]] + infos[1..];
    }
  }

  /** The artists of a playlist entry (lines 574-588). */
  function PlaylistArtists(info: Option<seq<Option<string>>>): (artists: seq<string>)
    ensures |artists| >= 1 && forall k :: 0 <= k < |artists| ==> artists[k] != ""
  {
    if info.Some? && |info.value| > 0 && SingerNames(info.value) != [] then SingerNames(info.value)
    else [UnknownSinger]
  }

  /** A singer whose name is missing is listed as unknown, not dropped. */
  lemma MissingSingerIsUnknown(infos: seq<Option<string>>)
    requires |infos| > 0 && infos[0].None?
    ensures PlaylistArtists(Some(infos))[0] == UnknownSinger
  {
  }

  /** The entries with a hash and a name, turned into tracks in order (lines 566-590). */
  function PlaylistMusics(songs: seq<Option<PlaylistSong>>): (r: seq<Music>)
    ensures |r| <= |songs|
    ensures forall k :: 0 <= k < |r| ==> |r[k].artists| >= 1
    decreases |songs|
  {
    if songs == [] then [] else PlaylistEntry(songs[0]) + PlaylistMusics(songs[1..])
  }

  /** One entry: a track when its hash and name are both present, nothing otherwise. */
  function PlaylistEntry(song: Option<PlaylistSong>): (r: seq<Music>)
    ensures |r| <= 1
    ensures |r| == 1 <==> song.Some? && song.value.hash.Some? && song.value.name.Some?
    ensures |r| == 1 ==> r[0] == Music(song.value.hash.value, song.value.name.value, PlaylistArtists(song.value.singerInfo))
  {
    match song
    case Some(PlaylistSong(Some(hash), Some(name), info)) => [Music(hash, name, PlaylistArtists(info))]
    case _ => []
  }

  /** Pages of entries concatenate. */
  lemma {:induction false} PlaylistMusicsConcat(a: seq<Option<PlaylistSong>>, b: seq<Option<PlaylistSong>>)
    ensures PlaylistMusics(a + b) == PlaylistMusics(a) + PlaylistMusics(b)
    decreases |a|
  {
    if a != [] {
      var head := PlaylistEntry(a[0]);
      assert (a + b)[0] == a[0] && (a + b)[1..] == a[1..] + b;
      PlaylistMusicsConcat(a[1..], b);
      calc {
        PlaylistMusics(a + b);
        head + PlaylistMusics(a[1..] + b);
        head + (PlaylistMusics(a[1..]) + PlaylistMusics(b));
        (head + PlaylistMusics(a[1..])) + PlaylistMusics(b);
        PlaylistMusics(a) + PlaylistMusics(b);
      }
    } else {
      assert a + b == b;
    }
  }

  /** Every track comes from an entry with that hash and name, and every complete entry gives one. */
  lemma {:induction false} PlaylistMusicsMembers(songs: seq<Option<PlaylistSong>>, m: Music)
    ensures m in PlaylistMusics(songs) <==>
      exists k :: 0 <= k < |songs| && songs[k].Some? && songs[k].value.hash == Some(m.id)
                  && songs[k].value.name == Some(m.name) && m.artists == PlaylistArtists(songs[k].value.singerInfo)
    decreases |songs|
  {
    if songs != [] {
      PlaylistMusicsMembers(songs[1..], m);
      var e := PlaylistEntry(songs[0]);
      assert PlaylistMusics(songs) == e + PlaylistMusics(songs[1..]);
      if exists k :: 0 <= k < |songs| && songs[k].Some? && songs[k].value.hash == Some(m.id)
                     && songs[k].value.name == Some(m.name) && m.artists == PlaylistArtists(songs[k].value.singerInfo) {
        var k :| 0 <= k < |songs| && songs[k].Some? && songs[k].value.hash == Some(m.id)
                 && songs[k].value.name == Some(m.name) && m.artists == PlaylistArtists(songs[k].value.singerInfo);
        if k > 0 {
          assert songs[1..][k - 1] == songs[k];
        }
      }
      if m !in e && m in PlaylistMusics(songs[1..]) {
        var k :| 0 <= k < |songs[1..]| && songs[1..][k].Some? && songs[1..][k].value.hash == Some(m.id)
                 && songs[1..][k].value.name == Some(m.name) && m.artists == PlaylistArtists(songs[1..][k].value.singerInfo);
        assert songs[k + 1] == songs[1..][k];
      }
    }
  }

  /**
   * GetMusicsByPlaylistAsync (lines 539-600). `pages(id, page)` is the document for page
   * `page` of ten tracks of playlist `id`.
   */
  function GetMusicsByPlaylist(playlistId: string, offset: int, pages: (string, int) -> PlaylistTracks)
    : (r: Result<seq<Music>, KuGouError>)
    requires Int32Min <= offset <= Int32Max
    ensures var tracks := pages(playlistId, PageNumber(offset));
      && (r.Err? <==> tracks.status != Some(1) || tracks.errorCode.GetOr(0) != 0)
      && (r.Ok? ==> r.value == if tracks.songs.None? then [] else PlaylistMusics(tracks.songs.value))
  {
    var tracks := pages(playlistId, PageNumber(offset));
    if tracks.status != Some(1) || tracks.errorCode.GetOr(0) != 0 then Err(StatusNotOk)
    else if tracks.songs.None? || |tracks.songs.value| == 0 then Ok([])
    else Ok(PlaylistMusics(tracks.songs.value))
  }

  // ------------------------------------------------------------------ GetUserPlayListAsync

  /** GetUserPlayListAsync (lines 516-537): the identifier is the playlist id itself. */
  function GetUserPlayList(userIdentifier: string): (r: Result<seq<PlayList>, KuGouError>)
    ensures userIdentifier == "" <==> r == Err(BlankPlaylistId)
    ensures r.Ok? ==> |r.value| == 1 && r.value[0].id == userIdentifier
    ensures r.Ok? ==> |r.value[0].name| == |PlaylistNamePrefix| + |userIdentifier|
    ensures r.Ok? ==> r.value[0].name[..|PlaylistNamePrefix|] == PlaylistNamePrefix
    ensures r.Ok? ==> r.value[0].name[|PlaylistNamePrefix|..] == userIdentifier
  {
    if userIdentifier == "" then Err(BlankPlaylistId)
    else Ok([PlayList(userIdentifier, PlaylistNamePrefix + userIdentifier)])
  }
}
