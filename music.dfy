/** The records every platform adapter returns and the hub forwards. */
module MusicTypes {
  import opened Wrappers
  import opened Text

  /**
   * GetMusicsByPlaylistAsync(id, offset) asks its platform for page `offset / 10 + 1` of ten
   * tracks, where C#'s `/` on an `int` truncates toward zero (Dafny's is Euclidean).
   */
  function PageNumber(offset: int): (pn: int)
    requires Int32Min <= offset <= Int32Max
    ensures offset >= 0 ==> pn >= 1 && 10 * (pn - 1) <= offset < 10 * pn
    ensures offset < 0 ==> pn <= 1 && 10 * (pn - 2) < offset <= 10 * (pn - 1)
  {
    (if offset >= 0 then offset / 10 else -((-offset) / 10)) + 1
  }

  /** Music(Id, Name, Artists): a track as a platform adapter resolved it. */
  datatype Music = Music(id: string, name: string, artists: seq<string>)

  /**
   * An absolute URL as System.Uri parses it; only the parts the adapters touch are kept apart.
   * Turning text into this record and back is not part of the model.
   */
  datatype Url = Url(scheme: string, host: string, port: Option<int>, pathAndQuery: string)

  /**
   * PlayableMusic: the track plus a playback URL, its length in milliseconds and whether
   * listeners must fetch it through the relay (NeedProxy) from TargetUrl with Referer.
   */
  datatype PlayableMusic = PlayableMusic(
    music: Music,
    url: string,
    lengthMs: int,
    needProxy: bool,
    targetUrl: Option<Url>,
    referer: Option<string>)

  /** `new PlayableMusic(music) { Url = url, Length = length }`: no relay, no target, no referer. */
  function Direct(music: Music, url: string, lengthMs: int): PlayableMusic {
    PlayableMusic(music, url, lengthMs, false, None, None)
  }

  /** PlayList(Id, Name). */
  datatype PlayList = PlayList(id: string, name: string)
}
