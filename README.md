# MusicParty core in Dafny

MusicParty is a shared listening room. An ASP.NET server and a SignalR hub hold one play queue, the online users and a chat log. Browser clients mirror that state through callbacks. Tracks are resolved through adapters for Bilibili, KuGou and Netease Cloud Music. Audio that a browser cannot fetch directly (Bilibili) goes through a relay. The relay is a middleware that downloads the current track into one process-wide buffer while serving HTTP range requests from it.

This project models that core and proves properties of it:

- `text.dfy` (`Text`): the .NET primitives the core relies on, stated exactly.
  - `string.Split(char)` and ordinal `string.Replace`.
  - `Convert.ToInt64` / `int.TryParse`, with the `NumberStyles.Integer` grammar and range check.
  - Decimal rendering of integers.
  - `long` wrap-around.
- `music.dfy` (`MusicTypes`): the `Music`, `PlayableMusic` and `PlayList` records, and the page number `offset / 10 + 1` both playlist adapters request.
- `relay.dfy` (`Relay`): `MusicProxyMiddleware`.
  - `PlanResponse` says how a request is answered: passed on, faulted, 416, 200 or 206 with its headers.
  - The class `MusicProxy` holds the middleware's static fields. `StartProxyAsync` is `Start`. The background writer loop and `WriteBuffer` are `WriterStep` and `RunWriter`.
  - The class `RangeReader` runs the copy loop of `InvokeAsync` in the pieces between its awaits: `Check` (the loop and token tests), `Poll` (the wait, then the write of the received bytes) and `Resume` (`i = _read` once that write has finished). Writer steps, reader steps and restarts can be interleaved between these pieces in any order. A reader always reads the current buffer, so a response that is being served when the track changes goes on with the new track's bytes (`Relay.ResponseSpansRestart`).
- `hub.dfy` (`Hub`): `MusicHub`.
  - The process-wide online-user set and duplicate-connection list are the class `OnlineRegistry`.
  - The hub instance's newest-first chat log is in the class `MusicHub`.
  - Also here: the connect/disconnect bookkeeping, `ChatSay`, `EnqueueMusic` and `RequestSetNowPlaying`. The messages sent to clients are returned as values.
- `client.dfy` (`ClientQueue`): the reducers the web client's `Connection` callbacks apply to the play queue, the online-user list and the chat panel.
- `chat.dfy` (`ChatConsistency`): the hub's chat log against the client's chat panel, including the replay a new connection receives.
- `bilibili.dfy`, `kugou.dfy`, `netease.dfy`: `GetMusicByIdAsync`, `GetPlayableMusicAsync` and the playlist operations of the three adapters.
  - Each HTTP response is a parameter. It is the parsed JSON document, with missing fields as `None`, given as a function of the request it answers.
  - Exceptions become `Err` results.

The model follows the code at these points, where its behaviour is easy to misread:

- `InvokeAsync` bounds only the range *length*. It answers 416 when `end - start + 1` exceeds the session length or is not positive. Neither `start` nor `end` is compared with the session length. So `bytes=1000-1005` on a 1000-byte session is answered 206 from offset 1000 (`Relay.RangePastEndAccepted`). While the session lasts, such a response never completes (`Relay.RangeReader.Run`). After a restart with a longer track it goes on from the new buffer.
- Line 79 reads the received count again after the awaited write of line 78. A chunk the writer appends during that write is never sent: the response jumps over it (`Relay.SendInterrupted`, `Relay.ResponseSkipsChunk`). So a response stays an exact copy of the buffer only while no writer step falls inside a write (`Relay.RangeReader.Run`).
- The loop bound `contentLength + start` is a `long` sum. A range that ends past long.MaxValue, such as `bytes=9223372036854775806-9223372036854775807`, passes the 416 test (`Relay.WrappedRangeAccepted`). Its loop bound then wraps to a negative number, so the response completes at once with no bytes (`Relay.ServeWrappedRange`).
- Writers and readers carry no session or generation number. A writer stops only by seeing the *current* token cancelled. A reader stops only by seeing it cancelled at the top of an iteration.
- `string.Replace("http", "https")` turns `https://` into `httpss://` (`Text.HttpUpgrade`).
- KuGou's keyword search falls back to `SingerName` only when `Singers` is missing or empty. A `Singers` array whose names are all empty gives `未知歌手` (`KuGou.EmptySingersIgnoreSingerName`). `OriSongName ?? FileName` falls back only on a missing name, so an empty original name gives `未知歌曲` (`KuGou.EmptyOriginalNameIsUnknown`).
- `_messageQueue` is an instance field of the hub. SignalR creates a hub instance per invocation, so the replay in `OnConnectedAsync` reads the log of its own instance. `Hub.MusicHub` models one instance; `ChatConsistency` models the log as if one instance received every `ChatSay`.

## Model

| member | source | states |
|---|---|---|
| Text.WrapInt64 | MusicParty/MusicProxyMiddleware.cs:48 | The result is in the `long` range, congruent to the input modulo 2^64, equal to it when it fits; long.MaxValue + 1 wraps to long.MinValue |
| Text.JoinSeparators | MusicParty/MusicProxyMiddleware.cs:40 | Joining pieces free of the separator contains the separator exactly when there are at least two pieces |
| Text.Split | MusicParty/MusicProxyMiddleware.cs:40 | Split yields at least one piece, and at least two once the separator occurs |
| Text.SplitJoin | MusicParty/MusicProxyMiddleware.cs:40 | Joining the pieces with the separator gives back the string, and no piece contains the separator |
| Text.SplitNoSeparator | BilibiliApi/BilibiliApi.cs:124 | A string without the separator splits into itself alone |
| Text.SplitAtFirstSeparator | BilibiliApi/BilibiliApi.cs:88 | The first piece ends at the first separator and the rest is the split of what follows |
| Text.ReplaceAllNeverShrinks | KuGouMusicApi/KuGouMusicApi.cs:307 | Replacing a pattern by text at least as long never shortens the string |
| Text.ReplaceAllNoOccurrence | KuGouMusicApi/KuGouMusicApi.cs:307 | Replace leaves text without an occurrence of the pattern unchanged |
| Text.ReplaceAllFirstOccurrence | KuGouMusicApi/KuGouMusicApi.cs:307 | Replace copies text up to the first occurrence, substitutes it, and continues after it |
| Text.ReplaceAllCopies | KuGouMusicApi/KuGouMusicApi.cs:307 | A character that cannot start the pattern is copied unchanged |
| Text.ReplaceAllSchemeSeparator | KuGouMusicApi/KuGouMusicApi.cs:307 | `://` passes through the http→https replacement unchanged |
| Text.HttpPrefix | KuGouMusicApi/KuGouMusicApi.cs:307 | A leading `http` becomes `https` and replacement continues after it |
| Text.HttpUpgrade | NeteaseCloudMusicApi/NeteaseCloudMusicApi.cs:161 | Replacing `http` by `https` turns `http://` into `https://` and `https://` into `httpss://` |
| Text.SecureUpgrade | NeteaseCloudMusicApi/NeteaseCloudMusicApi.cs:161 | An `https://` URL comes out as `httpss://`, the rest replaced as usual |
| Text.IsWhiteSpace | KuGouMusicApi/KuGouMusicApi.cs:343 | The characters `char.IsWhiteSpace` accepts: the Unicode White_Space set |
| Text.IsBlank | KuGouMusicApi/KuGouMusicApi.cs:343 | `string.IsNullOrWhiteSpace` of a non-null string: every character is white space |
| Text.BlankConcat | KuGouMusicApi/KuGouMusicApi.cs:343 | Text is blank exactly when both of its parts are |
| Text.BlankExamples | KuGouMusicApi/KuGouMusicApi.cs:343 | The empty text and runs of spaces, tabs or ideographic spaces are blank; text with a letter is not |
| Text.DigitChar | MusicParty/MusicProxyMiddleware.cs:56 | A digit value renders as an ASCII digit |
| Text.NatToStringDigits | MusicParty/MusicProxyMiddleware.cs:56 | The decimal rendering of a natural is non-empty, all digits, and denotes that natural |
| Text.IntToStringChars | BilibiliApi/BilibiliApi.cs:111 | The rendering of an integer is non-empty and consists of digits, with a leading '-' only for negatives |
| Text.TrimStartNumberWhite | MusicParty/MusicProxyMiddleware.cs:43 | The leading white space allowed by NumberStyles.Integer is removed: the result is a suffix not starting with it |
| Text.TrimEndNumberWhite | MusicParty/MusicProxyMiddleware.cs:43 | The trailing white space is removed: the result is a prefix not ending with it |
| Text.TrimStartStrips | MusicParty/MusicProxyMiddleware.cs:43 | Everything removed at the front is white space |
| Text.TrimEndStrips | MusicParty/MusicProxyMiddleware.cs:43 | Everything removed at the back is white space |
| Text.TrimStartNoop | MusicParty/MusicProxyMiddleware.cs:43 | Text not starting with white space is not changed at the front |
| Text.TrimEndNoop | MusicParty/MusicProxyMiddleware.cs:43 | Text not ending with white space is not changed at the back |
| Text.TrimRenderedInteger | MusicParty/MusicProxyMiddleware.cs:43 | A rendered integer has no white space to trim |
| Text.ParseSignedDigits | MusicParty/MusicProxyMiddleware.cs:43-45 | A number read is an optional sign followed by digits, and a negative one starts with '-' |
| Text.ParseInteger | MusicParty/MusicProxyMiddleware.cs:43-45 | A parsed value is within the target type's range; anything else is a failure |
| Text.ParseSignedDigitsRoundTrip | MusicParty/MusicProxyMiddleware.cs:43 | The sign-and-digits parser reads back every rendered integer |
| Text.ParseIntegerRoundTrip | BilibiliApi/BilibiliApi.cs:90 | Parsing the rendering of an in-range integer gives that integer |
| Text.ParseIntegerRejectsOthers | MusicParty/MusicProxyMiddleware.cs:43 | Text that parses consists only of white space, digits and signs |
| MusicTypes.PageNumber | KuGouMusicApi/KuGouMusicApi.cs:541-542 | With C#'s truncating division: a non-negative offset is on the 1-based page of ten holding it; a negative offset rounds toward zero, so offsets -9 to -1 give page 1 |
| Relay.ParseIntegerNoMinus | MusicParty/MusicProxyMiddleware.cs:43-45 | Text without '-' never parses to a negative number |
| Relay.ParseRange | MusicParty/MusicProxyMiddleware.cs:40-46 | A parsed range has a start, and an end if given, within the `long` range |
| Relay.ParseRangeClosed | MusicParty/MusicProxyMiddleware.cs:40-46 | `bytes=S-E` parses to start S and end E |
| Relay.SplitClosedRange | MusicParty/MusicProxyMiddleware.cs:40 | The text after `bytes=` of `bytes=S-E` splits into the two renderings |
| Relay.ParseRangeOfPieces | MusicParty/MusicProxyMiddleware.cs:40-46 | Two pieces that both parse give the closed range of their values |
| Relay.ParseRangeOpen | MusicParty/MusicProxyMiddleware.cs:40-46 | `bytes=S-` parses to start S and no end |
| Relay.NoMinusInRendering | MusicParty/MusicProxyMiddleware.cs:56 | A natural's rendering has no '-' |
| Relay.StartsWithSegment | MusicParty/MusicProxyMiddleware.cs:20 | `PathString.StartsWithSegments`: the segment is a case-insensitive prefix that ends the path or is followed by '/' |
| Relay.ProxyPathMatches | MusicParty/MusicProxyMiddleware.cs:20 | `/musicproxy` and `/MusicProxy/a` are relay paths; `/musicproxyx` and `/music` are not |
| Relay.ContentRange | MusicParty/MusicProxyMiddleware.cs:56 | The header text `bytes start-end/total` |
| Relay.RangeOutcome | MusicParty/MusicProxyMiddleware.cs:36-57 | A parsed range is 416 or a 206 whose Content-Length is between 1 and the session length and whose Content-Range is `bytes start-(start+len-1)/total` |
| Relay.PlanResponse | MusicParty/MusicProxyMiddleware.cs:20-57 | Passed on exactly when the path is not under `/musicproxy` or no session is loaded; otherwise the mime type is set, with no Range header the whole session is answered 200, and a Range header that does not parse makes the handler throw |
| Relay.PlanForParsedHeader | MusicParty/MusicProxyMiddleware.cs:38-57 | A header that parses is answered by the range outcome of what it parses to |
| Relay.ParseRangeWithoutDash | MusicParty/MusicProxyMiddleware.cs:40-45 | A header with no '-' after its first six characters does not parse, since `ranges[1]` is out of bounds |
| Relay.ParseRangeSuffix | MusicParty/MusicProxyMiddleware.cs:40-43 | A suffix range `bytes=-N` does not parse, since its empty start is not a number |
| Relay.PlanForUnparsedHeader | MusicParty/MusicProxyMiddleware.cs:38-45 | A request with either kind of header faults |
| Relay.RangeOutcomeClosed | MusicParty/MusicProxyMiddleware.cs:48-57 | For S-E: 416 exactly when E-S+1 exceeds the session or is not positive, else 206 with Content-Range S-E |
| Relay.RangeOutcomeOpen | MusicParty/MusicProxyMiddleware.cs:36-57 | For S-: 416 exactly when S is at or past the end, else 206 to the last byte |
| Relay.ClosedRangeVerdict | MusicParty/MusicProxyMiddleware.cs:38-57 | A `bytes=S-E` request is refused with 416 exactly when E-S+1 exceeds the session length or is not positive; S and E themselves are never compared with it |
| Relay.OpenRangeVerdict | MusicParty/MusicProxyMiddleware.cs:38-57 | A `bytes=S-` request gets 416 exactly when S is at least the session length, else 206 for bytes S to the end |
| Relay.RangePastEndAccepted | MusicParty/MusicProxyMiddleware.cs:48-57 | `bytes=1000-1005` on a 1000-byte session is answered 206 from offset 1000 with six bytes, not 416 |
| Relay.WrappedRangeAccepted | MusicParty/MusicProxyMiddleware.cs:48-57 | `bytes=9223372036854775806-9223372036854775807` asks for two bytes and is answered 206 on any session of at least two bytes, although its end is past long.MaxValue |
| Relay.ExampleTexts | MusicParty/MusicProxyMiddleware.cs:56 | The rendered example header and Content-Range read `bytes=1000-1005` and `bytes 1000-1005/1000` |
| Relay.RenderExample | MusicParty/MusicProxyMiddleware.cs:56 | 1000 and 1005 render as "1000" and "1005" |
| Relay.MusicProxy.constructor | MusicParty/MusicProxyMiddleware.cs:5-10 | Initial statics: no buffer, nothing read, length 0, no mime type, one uncancelled token |
| Relay.MusicProxy.CancelCurrent | MusicParty/MusicProxyMiddleware.cs:87 | The current token becomes cancelled and nothing else changes |
| Relay.MusicProxy.Renew | MusicParty/MusicProxyMiddleware.cs:88-91 | A new uncancelled token becomes current and the mime type is replaced; the buffer is untouched |
| Relay.MusicProxy.Attach | MusicParty/MusicProxyMiddleware.cs:122-124 | A fresh zeroed buffer of the declared length replaces the old one and nothing has been received |
| Relay.MusicProxy.Start | MusicParty/MusicProxyMiddleware.cs:85-124 | The previous token ends cancelled, a new one is current, the mime type is set; a parsed Content-Length attaches a fresh zeroed buffer, a missing one leaves the old buffer |
| Relay.MusicProxy.WriterStep | MusicParty/MusicProxyMiddleware.cs:130-144 | An empty read ends the stream; a cancelled token stops; a chunk that does not fit overflows; otherwise the chunk is copied at the received count, which grows by its size, and no other byte changes |
| Relay.AppendStep | MusicParty/MusicProxyMiddleware.cs:130-134 | One more chunk written behind the received bytes extends the copied concatenation by that chunk |
| Relay.MusicProxy.RunWriter | MusicParty/MusicProxyMiddleware.cs:125-138 | Without interference the writer appends the concatenated reads behind the received bytes until the stream ends, the token is cancelled, or a chunk overflows |
| Relay.DeliveredStable | MusicParty/MusicProxyMiddleware.cs:69-79 | Bytes a response has delivered stay equal to the buffer while the writer only appends |
| Relay.DeliveredExtend | MusicParty/MusicProxyMiddleware.cs:74-79 | Writing the received bytes that follow what was delivered keeps the response a faithful copy of the buffer |
| Relay.RangeReader.constructor | MusicParty/MusicProxyMiddleware.cs:60 | The loop starts at the range start with nothing written |
| Relay.RangeReader.Limit | MusicParty/MusicProxyMiddleware.cs:61 | The loop bound `contentLength + start` on `long`: the end of the range when it fits, a negative number when it does not |
| Relay.RangeReader.Check | MusicParty/MusicProxyMiddleware.cs:61-67 | At the loop head: done when the position reaches the `long` loop bound, aborted when the token is cancelled, waiting otherwise; a range ending past long.MaxValue is done at once with nothing written |
| Relay.RangeReader.Poll | MusicParty/MusicProxyMiddleware.cs:69-78 | Nothing while the received count has not passed the position; else the received bytes of the current buffer are written and the write is awaited, or the last part of the range is written and the response completes; the position does not move; a response that was a copy of the buffer stays one |
| Relay.RangeReader.Resume | MusicParty/MusicProxyMiddleware.cs:79 | After the write the position becomes the received count as it is now, and nothing is written; a response that was a copy of the buffer, with no chunk received during the write, stays one |
| Relay.SendInterrupted | MusicParty/MusicProxyMiddleware.cs:78-79 | A chunk received while a write is awaited is jumped over: the position ends that many bytes past what the response has written; with no chunk written the response stays a copy |
| Relay.SendFirstChunk | MusicParty/MusicProxyMiddleware.cs:60-78 | A reader of a fresh ten-byte session sends the whole first chunk it finds and awaits that write, without moving its position |
| Relay.ResponseSkipsChunk | MusicParty/MusicProxyMiddleware.cs:69-79 | Bytes 1, 2 are sent, 3, 4 arrive during that write, 5 after: the response is 1, 2, 5 although the buffer holds 1 to 5 |
| Relay.RangeReader.Run | MusicParty/MusicProxyMiddleware.cs:60-82 | Run with no writer step in between: a response that followed the current session and completes delivered exactly the requested bytes of the buffer, and one past that buffer never completes; a range ending past long.MaxValue completes empty; a wait means the bytes have not arrived; an abort means cancellation; an uncancelled, fully received range completes |
| Relay.ServeWrappedRange | MusicParty/MusicProxyMiddleware.cs:60-82 | A response for the range ending past long.MaxValue completes with an empty body |
| Relay.ResponseSpansRestart | MusicParty/MusicProxyMiddleware.cs:61-79 | A response that received bytes 1, 2, 3 of one track goes on, after `StartProxyAsync` attaches the next, with the next track's byte at offset 3: one response carries bytes of both tracks |
| Hub.Replay | MusicParty/Hub/MusicHub.cs:40-46 | One message per log entry, each to the caller |
| Hub.ReplayOldestFirst | MusicParty/Hub/MusicHub.cs:40-46 | The replay sends every log entry once to the caller, oldest first |
| Hub.RequestSetNowPlaying | MusicParty/Hub/MusicHub.cs:85-91 | Nothing is sent exactly when nothing is playing; otherwise one SetNowPlaying to the caller with the track, enqueuer and elapsed seconds |
| Hub.KeepNewest | MusicParty/Hub/MusicHub.cs:130-135 | The kept log is the newest entries, at most 30, and all of them when there are fewer |
| Hub.ChatSayFront | MusicParty/Hub/MusicHub.cs:130-135 | The new message is first, followed by the previous log's newest entries; nothing is dropped below 30 |
| Hub.RemoveFirst | MusicParty/Hub/MusicHub.cs:60 | List.Remove drops one occurrence when present and returns the list unchanged otherwise |
| Hub.RemoveFirstAt | MusicParty/Hub/MusicHub.cs:60 | The occurrence removed is the first one |
| Hub.EnqueueMusic | MusicParty/Hub/MusicHub.cs:70-83 | An unknown api name fails with its message; a failed resolution fails with the id; otherwise the resolved track is enqueued for the caller under that api |
| Hub.OnlineRegistry.constructor | MusicParty/Hub/MusicHub.cs:10-11 | Both registries start empty |
| Hub.MusicHub.constructor | MusicParty/Hub/MusicHub.cs:16 | A new hub instance has an empty chat log |
| Hub.MusicHub.OnConnected | MusicParty/Hub/MusicHub.cs:28-54 | A user already online is recorded as a duplicate and aborted; otherwise they go online, the others are told, and the caller gets the log oldest first and the track now playing |
| Hub.MusicHub.OnDisconnected | MusicParty/Hub/MusicHub.cs:56-66 | A duplicate connection only removes its id; any other takes the user offline and tells everyone |
| Hub.MusicHub.ChatSay | MusicParty/Hub/MusicHub.cs:124-138 | The message goes to the front of the log, the oldest beyond 30 are dropped, and it is broadcast to all |
| ClientQueue.Filter | music-party/pages/index.tsx:92 | Filtering never lengthens a list |
| ClientQueue.FilterMembers | music-party/pages/index.tsx:92 | Filter keeps exactly the elements passing the test |
| ClientQueue.FilterMembersAll | music-party/pages/index.tsx:102 | Filter keeps exactly the elements passing the test, for all elements at once |
| ClientQueue.FilterConcat | music-party/pages/index.tsx:92 | Filtering distributes over concatenation |
| ClientQueue.FilterKeepsAll | music-party/pages/index.tsx:102 | Filtering with a test every element passes is the identity |
| ClientQueue.FilterSingle | music-party/pages/index.tsx:92 | A single element is kept exactly when it passes the test |
| ClientQueue.FilterDropsOne | music-party/pages/index.tsx:92 | Among elements that pass, one failing element is removed and nothing else |
| ClientQueue.FindAction | music-party/pages/index.tsx:87 | find returns the first entry with the action id, and nothing exactly when none has it |
| ClientQueue.Enqueue | music-party/pages/index.tsx:79-81 | The new entry is appended and the queue before it is unchanged |
| ClientQueue.Advance | music-party/pages/index.tsx:82-84 | The head is dropped and the rest keeps its order; an empty queue stays empty |
| ClientQueue.OtherActions | music-party/pages/index.tsx:92 | Exactly the entries with another action id remain |
| ClientQueue.Promote | music-party/pages/index.tsx:85-94 | Fails exactly when no entry has the id; otherwise the first entry with the id, as `find` returns it, comes first, and the entries with other ids follow in their order (`filter`) |
| ClientQueue.OtherActionsUnique | music-party/pages/index.tsx:92 | With distinct ids, filtering out entry k's id removes just entry k |
| ClientQueue.FindUnique | music-party/pages/index.tsx:87 | With distinct ids, find returns entry k for its own id |
| ClientQueue.MoveToFrontPermutes | music-party/pages/index.tsx:92 | Moving one element to the front keeps the multiset |
| ClientQueue.PromoteMovesOne | music-party/pages/index.tsx:85-94 | With distinct ids, promoting entry k moves just that entry to the front, the others keep their order, and the queue is a permutation of the old one |
| ClientQueue.Login | music-party/pages/index.tsx:98-100 | The user is appended and the list before it is unchanged |
| ClientQueue.Logout | music-party/pages/index.tsx:101-103 | Exactly the entries with another id remain |
| ClientQueue.LoginLogout | music-party/pages/index.tsx:98-103 | Logging a new id in and out again restores the list |
| ClientQueue.Rename | music-party/pages/index.tsx:104-108 | Entries with the id get the new name in place; all others are unchanged |
| ClientQueue.RenameTwice | music-party/pages/index.tsx:104-108 | Renaming twice equals renaming once to the second name, and no id changes |
| ClientQueue.AppendChat | music-party/pages/index.tsx:109-114 | The line is appended and only the latest 30 lines are kept, in order |
| ChatConsistency.Reverse | MusicParty/Hub/MusicHub.cs:42 | Reversal keeps the length and mirrors positions |
| ChatConsistency.Lines | music-party/pages/index.tsx:111 | Each chat entry becomes the panel line of its name and content, in order |
| ChatConsistency.HubStep | MusicParty/Hub/MusicHub.cs:130-135 | One ChatSay keeps the log as the latest min(n, 30) messages, newest first |
| ChatConsistency.ClientStep | music-party/pages/index.tsx:109-114 | One NewChat callback keeps the panel as the latest min(n, 30) messages, oldest first |
| ChatConsistency.HubLogNewest | MusicParty/Hub/MusicHub.cs:124-138 | After a sequence of ChatSay calls the log holds the latest min(n, 30) messages, newest first |
| ChatConsistency.ClientLogLatest | music-party/pages/index.tsx:109-114 | After the same NewChat callbacks the panel holds the latest min(n, 30) messages, oldest first |
| ChatConsistency.ClientMirrorsHub | music-party/pages/index.tsx:109-114 | A client that saw every broadcast shows the hub's log reversed |
| ChatConsistency.ReplayIsReversedLog | MusicParty/Hub/MusicHub.cs:40-46 | The replay sends the log reversed |
| ChatConsistency.ClientLogShort | music-party/pages/index.tsx:109-114 | Up to 30 messages are all shown, in order |
| ChatConsistency.LateJoinerSeesSameChat | MusicParty/Hub/MusicHub.cs:40-46 | A client that connects later and applies the replay shows the same panel as one that was there all along |
| Bilibili.ParseVideoId | BilibiliApi/BilibiliApi.cs:84-96 | An id without '@' is part 1; `bvid@P` gives the text before '@' and the value P that `int.TryParse` reads from the second piece, failing exactly when that is not an int of at least 1 |
| Bilibili.ParseVideoIdRoundTrip | BilibiliApi/BilibiliApi.cs:84-96 | `bvid@P` with an '@'-free bvid and a positive P parses back to bvid and P |
| Bilibili.GetMusicById | BilibiliApi/BilibiliApi.cs:81-115 | A malformed id fails with its parse error; a missing or failed view response fails; no parts fails with NoParts, a part past the end with PartOutOfRange(P, count); a missing owner record fails with NoUploader; otherwise it succeeds with `bvid,cid` of part P, the title and the uploader |
| Bilibili.PlayIds | BilibiliApi/BilibiliApi.cs:124-126 | The track id gives bvid and cid, the first two comma-separated pieces; it fails exactly when there is no comma |
| Bilibili.PlayIdsRoundTrip | BilibiliApi/BilibiliApi.cs:111-126 | The id GetMusicById builds splits back into its bvid and cid |
| Bilibili.ResolvedIdPlaysSameVideo | BilibiliApi/BilibiliApi.cs:114-126 | A resolved track is played from the video it was resolved from |
| Bilibili.LowestIdIndex | BilibiliApi/BilibiliApi.cs:139 | OrderBy(id).First() picks a stream of the smallest id, the first such in order |
| Bilibili.GetPlayable | BilibiliApi/BilibiliApi.cs:122-160 | Playback goes through the relay with the lowest-id stream moved to the mirror host, the Bilibili referer and the duration in ms; a malformed id fails |
| Bilibili.PlayableLength | BilibiliApi/BilibiliApi.cs:131-155 | Videos over 1200 s are refused; any shorter one with an audio stream, negative durations included, is accepted and needs the relay, with its length in ms whenever that fits a `long` |
| Bilibili.Playable | BilibiliApi/BilibiliApi.cs:195 | An entry is kept when it is a video (type 2) whose title is not 已失效视频 |
| Bilibili.UploadersPresent | BilibiliApi/BilibiliApi.cs:195-196 | Every entry the filter keeps has an uploader record, which the Select reads |
| Bilibili.FavoriteMusics | BilibiliApi/BilibiliApi.cs:195-196 | Kept entries are never expired videos and have one artist, and no more tracks than entries |
| Bilibili.FavoriteMusicsConcat | BilibiliApi/BilibiliApi.cs:195-196 | Entries are kept independently, so the result distributes over concatenation |
| Bilibili.FavoriteMusicsSingle | BilibiliApi/BilibiliApi.cs:195-196 | One entry is kept exactly when it is a video not titled 已失效视频, as its bvid, title and uploader |
| Bilibili.GetMusicsByPlaylist | BilibiliApi/BilibiliApi.cs:186-197 | The page for the offset is requested; a bad response fails, missing media give none, a kept entry without an uploader record fails with NoUploader, otherwise the kept entries |
| KuGou.PresentNames | KuGouMusicApi/KuGouMusicApi.cs:437-441 | The names kept are non-empty and no more than given |
| KuGou.PresentNamesMembers | KuGouMusicApi/KuGouMusicApi.cs:437-441 | A name is kept exactly when it is present and non-empty |
| KuGou.PresentNamesNone | KuGouMusicApi/KuGouMusicApi.cs:437-441 | All-missing or empty names keep nothing |
| KuGou.SearchArtists | KuGouMusicApi/KuGouMusicApi.cs:433-448 | A non-empty Singers array gives its non-empty names, or 未知歌手; otherwise SingerName or 未知歌手; never empty and never an empty artist |
| KuGou.EmptySingersIgnoreSingerName | KuGouMusicApi/KuGouMusicApi.cs:435-443 | A non-empty Singers array of empty names gives 未知歌手 without falling back to SingerName |
| KuGou.MusicFromHash | KuGouMusicApi/KuGouMusicApi.cs:370-383 | Succeeds exactly on status 1, keeping the hash as id, fileName or 未知歌曲, language or 未知语言/歌手 |
| KuGou.MusicFromSearch | KuGouMusicApi/KuGouMusicApi.cs:410-449 | Succeeds exactly when the status is error-free and the first hit is present with a non-empty FileHash, which becomes the id; the name is OriSongName when present, else FileName, with 未知歌曲 for an empty one; the artists are the hit's; each failing case gives its own error |
| KuGou.EmptyOriginalNameIsUnknown | KuGouMusicApi/KuGouMusicApi.cs:428-431 | An empty OriSongName does not fall back to FileName: the name is 未知歌曲 |
| KuGou.IsLikelyHash | KuGouMusicApi/KuGouMusicApi.cs:350 | A hash is 32 characters, each an upper-case letter or a digit |
| KuGou.GetMusicById | KuGouMusicApi/KuGouMusicApi.cs:341-460 | A blank id fails; a 32-char upper-case/digit id is looked up as a hash, anything else searched as a keyword; the result has a name and an artist |
| KuGou.HashIsNotBlank | KuGouMusicApi/KuGouMusicApi.cs:343-352 | A hash-shaped id always takes the hash path |
| KuGou.GetPlayable | KuGouMusicApi/KuGouMusicApi.cs:248-307 | Succeeds exactly on status 1 with a non-empty first url and a `long` time length; then the url with http→https and the length in ms, wrapping |
| KuGou.PlayableUrlAndLength | KuGouMusicApi/KuGouMusicApi.cs:289-307 | `http://` links become `https://`, `https://` ones `httpss://`; a missing length is 0, and a representable one is multiplied by 1000 |
| KuGou.SingerNames | KuGouMusicApi/KuGouMusicApi.cs:579-582 | Missing names count as 未知歌手, empty names are dropped, never an empty name |
| KuGou.PlaylistArtists | KuGouMusicApi/KuGouMusicApi.cs:576-591 | An entry always has at least one artist, none of them empty |
| KuGou.SingerNamesMembers | KuGouMusicApi/KuGouMusicApi.cs:579-582 | A name is listed exactly when it is a present non-empty name, or 未知歌手 when some singer has no name |
| KuGou.MissingSingerIsUnknown | KuGouMusicApi/KuGouMusicApi.cs:580 | A singer without a name is listed as 未知歌手, not dropped |
| KuGou.PlaylistEntry | KuGouMusicApi/KuGouMusicApi.cs:567-593 | An entry gives a track exactly when it has a hash and a name, as that hash, name and its artists |
| KuGou.PlaylistMusics | KuGouMusicApi/KuGouMusicApi.cs:566-594 | No more tracks than entries, each with an artist |
| KuGou.PlaylistMusicsConcat | KuGouMusicApi/KuGouMusicApi.cs:566-594 | Entries are kept independently, so the result distributes over concatenation |
| KuGou.PlaylistMusicsMembers | KuGouMusicApi/KuGouMusicApi.cs:566-594 | A track is in the result exactly when some entry has its hash, name and artists |
| KuGou.GetMusicsByPlaylist | KuGouMusicApi/KuGouMusicApi.cs:539-600 | The page for the offset is requested; it fails exactly on a bad status or error code, else gives the complete entries |
| KuGou.GetUserPlayList | KuGouMusicApi/KuGouMusicApi.cs:516-537 | An empty identifier fails; otherwise one playlist with that id, named `歌单ID: ` and the id |
| Netease.AllPresent | NeteaseCloudMusicApi/NeteaseCloudMusicApi.cs:221 | Reading every artist name succeeds exactly when all are present, giving them in order |
| Netease.ProgramId | NeteaseCloudMusicApi/NeteaseCloudMusicApi.cs:176-181 | An id starting with `pid=` gives the rest as program id, and only such ids do |
| Netease.ProgramIdRoundTrip | NeteaseCloudMusicApi/NeteaseCloudMusicApi.cs:176-181 | Prefixing `pid=` and reading it back gives the program id |
| Netease.ProgramArtists | NeteaseCloudMusicApi/NeteaseCloudMusicApi.cs:217-227 | Missing or empty artists give 未知艺术家; present ones must all have names; never empty |
| Netease.MusicFromProgram | NeteaseCloudMusicApi/NeteaseCloudMusicApi.cs:183-231 | Succeeds exactly when the code is 200, the program is there, its mainTrackId is a `long` and the artists can be read; the id is the rendered mainTrackId, the name the main song's or 未知歌曲; a mainTrackId outside `long` fails |
| Netease.MusicFromDetail | NeteaseCloudMusicApi/NeteaseCloudMusicApi.cs:233-243 | Succeeds exactly on code 200 with a first song whose name and artist names are present, keeping the input id |
| Netease.GetMusicById | NeteaseCloudMusicApi/NeteaseCloudMusicApi.cs:174-245 | A `pid=` id resolves its program's main track, any other id the song itself |
| Netease.ProgramResolvesToSong | NeteaseCloudMusicApi/NeteaseCloudMusicApi.cs:198-231 | A program resolves to the decimal main track id, which parses back to it and resolves as a plain song id |
| Netease.GetPlayable | NeteaseCloudMusicApi/NeteaseCloudMusicApi.cs:153-162 | Succeeds exactly on code 200 with a first entry having a url and a `long` time; then the url with http→https and that time as length |
| Netease.PlayableScheme | NeteaseCloudMusicApi/NeteaseCloudMusicApi.cs:161 | `http://` links become `https://`, `https://` ones `httpss://` |

## Left out

- HTTP, JSON and cookies: every request is a parameter mapping the request to its parsed document, and only the fields the code reads are kept. A field that is missing or JSON null is `None`, and a value of another JSON type is modelled as missing too. Where the code dereferences a missing value, the model gives an `Err`, as .NET throws. Where the code falls back on a missing value, a wrong-typed value takes the fallback in the model, although `GetValue` or the indexer throws on it in .NET. The members below are those cases, each on its own line.
- KuGou.MusicFromHash: a `fileName` or `language` that is not a string (KuGouMusicApi.cs:376-377) makes `GetValue<string>()` throw outside any try block; the model gives 未知歌曲 or no language and succeeds.
- KuGou.MusicFromSearch: an `error_msg` that is not a string (KuGouMusicApi.cs:410), an `error_code` that is not an `int` (:411), an `OriSongName` or `FileName` that is not a string (:428), a `Singers` name that is not a string (:438) or a `SingerName` that is not a string (:446) makes `GetValue` throw; the model reads each as missing, takes the fallback and can succeed.
- KuGou.GetPlayable: a `timeLength` that is not a number, such as `"240"` (KuGouMusicApi.cs:289), makes `GetValue<long>()` throw; the model reads it as missing and succeeds with length 0.
- KuGou.SingerNames: a `singerinfo` name that is not a string (KuGouMusicApi.cs:580) makes `GetValue<string>()` throw; the model lists it as 未知歌手.
- Netease.MusicFromProgram: a main-song `name` that is not a string (NeteaseCloudMusicApi.cs:214) makes `GetValue<string>()` throw, a `mainSong` that is not an object (:206) makes its indexer throw, and `artists` that are not an array (:217) make `AsArray()` throw; the model reads each as missing and succeeds with 未知歌曲 or 未知艺术家.
- Request URLs: tokens, cookies, timestamps, the user agent, `Uri.EscapeDataString` and the Host/Origin/Referer headers of the upstream request are not modelled. For Bilibili the URL that keys the response is modelled.
- The Bilibili view record class shown in BilibiliApi.cs:268-273 has no `pages` field, although line 106 reads one; `pages` is modelled as an optional field of the view data.
- URL parsing and rendering (`new Uri`, `UriBuilder`): a URL is a record with its host replaced in place.
- Concurrency: the reader's steps are the pieces of its loop between awaits, and each writer step is one iteration of the writer loop; each step is atomic. `_read += read` is not modelled as a read-modify-write race, and `Task.Delay` polling is one `Poll` per step.
- Relay.RangeReader.Poll: lines 69-78 run without an await, and the step reads `_read` once for them. The source reads `_read` again at lines 72 and 78, and the writer runs on another thread, so a chunk appended between those reads could make line 78 write past the end of the range. The model does not capture that race; only the re-read after the await of line 78 (Relay.RangeReader.Resume) is modelled.
- Bilibili.GetMusicsByPlaylist: the Select of line 196 is lazy, so a missing uploader record throws when the caller enumerates the tracks; the model fails the call itself with NoUploader.
- What the server does with a response whose bytes differ from its Content-Length header (after a skip or a restart) is not modelled: `body` is what the handler passes to `WriteAsync`.
- The `(int)` casts of lines 72-78 of the middleware, and buffers of 2 GB or more.
- Relay.MusicProxy.Start: a negative Content-Length, which makes `new byte[]` throw, is left out: `declared` is a `nat`.
- `Context.Abort()` and `CompleteAsync` are phases of the reader, not network actions.
- ChatConsistency: HubLogNewest, ClientMirrorsHub and LateJoinerSeesSameChat treat every `ChatSay` as received by one hub instance. SignalR creates a hub instance per invocation and `_messageQueue` is an instance field (MusicHub.cs:16), so in the running server each instance's log holds at most its own message and the replay a new connection receives is empty.
- Clocks: `DateTimeOffset.Now`, the elapsed seconds played, and chat timestamps are parameters.
- UserManager lookups: the display name, and the enqueuer's name, are parameters. MusicBroadcaster is not part of this model: the track now playing is a parameter, and the enqueue order is returned.
- Hub operations outside this model: GetMusicQueue, NextSong, TopSong, Rename, GetOnlineUsers. Also the KuGou and Netease login and search operations, and the Bilibili user and playlist listing.
- The client's toasts, audio element and React state plumbing: the reducers are pure functions of the previous state.
- KuGou.IsLikelyHash: `char.IsUpper` / `char.IsDigit` are Unicode categories; only ASCII upper-case letters and digits are modelled.
- Relay.StartsWithSegment: case-insensitive matching is modelled for ASCII only.
- Netease.ProgramId: `StartsWith` is culture-sensitive in .NET; it is modelled as an ordinal prefix test.
- Text.ParseInteger: trailing NUL characters, which the .NET number parser accepts, are not modelled.
- Null strings (`idInput != null`, `string.IsNullOrEmpty` of a null id) are not modelled: ids are always strings.
- Status and error codes that do not fit an `int`, which would make `GetValue<int>` throw, are treated like any other wrong code.
- KuGou.GetMusicsByPlaylist: a `songs` field that is present but not an array throws outside the try block. It is modelled like a missing field (no tracks), and a non-string hash or name like a missing one.
- Logging (`Console.WriteLine`, `ILogger`) and the error message texts of thrown exceptions, except the hub's HubException messages.
