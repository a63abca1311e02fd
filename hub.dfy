/**
 * The SignalR hub's session bookkeeping (MusicHub): the process-wide set of online users and
 * list of rejected duplicate connections, and the hub instance's newest-first chat log.
 *
 * Messages sent to clients are returned as a sequence of Send values instead of being sent.
 * The user's display name, the clock and the playing track are parameters: the UserManager
 * and the MusicBroadcaster are not part of this model.
 */
module Hub {
  import opened Wrappers
  import opened MusicTypes

  /** The chat log never holds more than this many entries after ChatSay. */
  const MaxChatLog: nat := 30

  const AlreadyLoggedIn: string := "You have already logged in."

  datatype ChatEntry = ChatEntry(name: string, content: string, timestamp: int)

  datatype Target = Caller | Others | All

  datatype Message =
    | Abort(reason: string)
    | OnlineUserLogin(id: string, name: string)
    | OnlineUserLogout(id: string)
    | NewChat(name: string, content: string, timestamp: int)
    | SetNowPlaying(music: PlayableMusic, enqueuerName: string, playedSeconds: int)

  datatype Send = Send(target: Target, message: Message)

  /** MusicBroadcaster.NowPlaying with the enqueuer's name and the whole seconds played. */
  datatype NowPlaying = NowPlaying(music: PlayableMusic, enqueuerName: string, playedSeconds: int)

  function ChatSend(target: Target, e: ChatEntry): Send {
    Send(target, NewChat(e.name, e.content, e.timestamp))
  }

  // ------------------------------------------------------------------ pure parts

  /**
   * The chat replay of OnConnectedAsync (lines 40-46): one NewChat to the caller per log
   * entry, walking the newest-first log from its back.
   */
  function Replay(log: seq<ChatEntry>): (sends: seq<Send>)
    ensures |sends| == |log| && forall k :: 0 <= k < |sends| ==> sends[k].target == Caller
    decreases |log|
  {
    if log == [] then [] else Replay(log[1..]) + [ChatSend(Caller, log[0])]
  }

  /** Replay sends every entry once, oldest first. */
  lemma {:induction false} ReplayOldestFirst(log: seq<ChatEntry>)
    ensures |Replay(log)| == |log|
    ensures forall k :: 0 <= k < |log| ==> Replay(log)[k] == ChatSend(Caller, log[|log| - 1 - k])
    decreases |log|
  {
    if log != [] {
      ReplayOldestFirst(log[1..]);
      forall k | 0 <= k < |log| ensures Replay(log)[k] == ChatSend(Caller, log[|log| - 1 - k]) {
        if k < |log| - 1 {
          assert Replay(log)[k] == Replay(log[1..])[k];
          assert log[1..][|log[1..]| - 1 - k] == log[|log| - 1 - k];
        }
      }
    }
  }

  /** RequestSetNowPlaying (lines 85-91) and the end of OnConnectedAsync (lines 48-53). */
  function RequestSetNowPlaying(nowPlaying: Option<NowPlaying>): (sends: seq<Send>)
    ensures nowPlaying.None? <==> sends == []
    ensures nowPlaying.Some? ==> sends == [Send(Caller, SetNowPlaying(
      nowPlaying.value.music, nowPlaying.value.enqueuerName, nowPlaying.value.playedSeconds))]
  {
    match nowPlaying
    case None => []
    case Some(np) => [Send(Caller, SetNowPlaying(np.music, np.enqueuerName, np.playedSeconds))]
  }

  /**
   * The log after AddFirst and the `while (Count > 30) RemoveLast()` loop (lines 130-135):
   * the newest entries, at most 30 of them, still newest first.
   */
  function KeepNewest(log: seq<ChatEntry>): (kept: seq<ChatEntry>)
    ensures |kept| <= MaxChatLog && |kept| <= |log|
    ensures kept == log[..|kept|]
    ensures |kept| == |log| || |kept| == MaxChatLog
  {
    if |log| <= MaxChatLog then log else log[..MaxChatLog]
  }

  /** The new message is at the front and the other entries follow it, newest first. */
  lemma ChatSayFront(e: ChatEntry, log: seq<ChatEntry>)
    ensures KeepNewest([e] + log)[0] == e
    ensures KeepNewest([e] + log)[1..] == log[..|KeepNewest([e] + log)| - 1]
    ensures |log| < MaxChatLog ==> KeepNewest([e] + log) == [e] + log
  {
    var kept := KeepNewest([e] + log);
    assert kept == ([e] + log)[..|kept|];
    assert kept[1..] == ([e] + log)[1..|kept|];
    assert ([e] + log)[1..|kept|] == log[..|kept| - 1];
  }

  /** List.Remove: the first occurrence goes, nothing else. */
  function RemoveFirst<T(==)>(s: seq<T>, x: T): (r: seq<T>)
    ensures x in s ==> |r| == |s| - 1
    ensures x !in s ==> r == s
    ensures multiset(r) == multiset(s) - multiset{x}
    decreases |s|
  {
    if s == [] then []
    else
      assert s == [s[0]] + s[1..];
      if s[0] == x then s[1..] else [s[0]] + RemoveFirst(s[1..], x)
  }

  /** RemoveFirst cuts the sequence at the first index holding x. */
  lemma {:induction false} RemoveFirstAt<T>(s: seq<T>, x: T, k: nat)
    requires k < |s| && s[k] == x && x !in s[..k]
    ensures RemoveFirst(s, x) == s[..k] + s[k + 1..]
    decreases k
  {
    if k > 0 {
      var t := s[1..];
      assert s[0] == s[..k][0];
      assert t[..k - 1] == s[1..k];
      assert x !in t[..k - 1] by {
        forall j | 0 <= j < k - 1 ensures t[j] != x {
          assert t[j] == s[..k][j + 1];
        }
      }
      RemoveFirstAt(t, x, k - 1);
      assert RemoveFirst(s, x) == [s[0]] + RemoveFirst(t, x);
      assert t[k..] == s[k + 1..];
      assert [s[0]] + s[1..k] == s[..k];
    }
  }

  /** Failures of EnqueueMusic, as HubException messages. */
  datatype EnqueueError = UnknownApiProvider(apiName: string) | FailedToEnqueue(id: string)

  function EnqueueErrorMessage(e: EnqueueError): string {
    match e
    case UnknownApiProvider(api) => "Unknown api provider " + api + "."
    case FailedToEnqueue(id) => "Failed to enqueue music, id: " + id
  }

  /** What EnqueueMusic hands to MusicBroadcaster.EnqueueMusic. */
  datatype EnqueueOrder = EnqueueOrder(music: Music, apiName: string, enqueuerId: string)

  /**
   * EnqueueMusic (lines 70-83). `apis` are the names TryGetMusicApi knows, and
   * `resolve(apiName, id)` is that adapter's GetMusicByIdAsync, None when it throws.
   */
  function EnqueueMusic(id: string, apiName: string, user: string, apis: set<string>,
                        resolve: (string, string) -> Option<Music>): (r: Result<EnqueueOrder, EnqueueError>)
    ensures apiName !in apis ==> r == Err(UnknownApiProvider(apiName))
    ensures apiName in apis && resolve(apiName, id).None? ==> r == Err(FailedToEnqueue(id))
    ensures r.Ok? <==> apiName in apis && resolve(apiName, id).Some?
    ensures r.Ok? ==> r.value == EnqueueOrder(resolve(apiName, id).value, apiName, user)
  {
    if apiName !in apis then Err(UnknownApiProvider(apiName))
    else match resolve(apiName, id)
      case None => Err(FailedToEnqueue(id))
      case Some(music) => Ok(EnqueueOrder(music, apiName, user))
  }

  // ------------------------------------------------------------------ state

  /** The static OnlineUsers (a HashSet) and DuplicatedConnectionIds (a List). */
  class OnlineRegistry {
    var onlineUsers: set<string>
    var duplicatedConnectionIds: seq<string>

    constructor ()
      ensures onlineUsers == {} && duplicatedConnectionIds == []
    {
      onlineUsers := {};
      duplicatedConnectionIds := [];
    }
  }

  /** One hub instance: the registry it shares and its own _messageQueue, newest first. */
  class MusicHub {
    const registry: OnlineRegistry
    var messageQueue: seq<ChatEntry>

    ghost predicate Valid()
      reads this
    {
      |messageQueue| <= MaxChatLog
    }

    constructor (registry: OnlineRegistry)
      ensures Valid() && this.registry == registry && messageQueue == []
    {
      this.registry := registry;
      messageQueue := [];
    }

    /**
     * OnConnectedAsync (lines 28-54) for `user` on connection `connectionId`. A second
     * login is recorded and aborted; otherwise the user goes online, the others hear of it,
     * and the caller gets the chat log oldest first and the track now playing.
     */
    method OnConnected(user: string, displayName: string, connectionId: string, nowPlaying: Option<NowPlaying>)
      returns (sends: seq<Send>, aborted: bool)
      modifies registry
      ensures aborted <==> user in old(registry.onlineUsers)
      ensures aborted ==>
        && registry.onlineUsers == old(registry.onlineUsers)
        && registry.duplicatedConnectionIds == old(registry.duplicatedConnectionIds) + [connectionId]
        && sends == [Send(Caller, Abort(AlreadyLoggedIn))]
      ensures !aborted ==>
        && registry.onlineUsers == old(registry.onlineUsers) + {user}
        && registry.duplicatedConnectionIds == old(registry.duplicatedConnectionIds)
        && sends == [Send(Others, OnlineUserLogin(user, displayName))] + Replay(messageQueue) + RequestSetNowPlaying(nowPlaying)
    {
      if user in registry.onlineUsers {
        registry.duplicatedConnectionIds := registry.duplicatedConnectionIds + [connectionId];
        return [Send(Caller, Abort(AlreadyLoggedIn))], true;
      }
      aborted := false;
      registry.onlineUsers := registry.onlineUsers + {user};
      sends := [Send(Others, OnlineUserLogin(user, displayName))];
      var replay: seq<Send> := [];
      var i := |messageQueue|;
      while i > 0
        invariant 0 <= i <= |messageQueue|
        invariant replay == Replay(messageQueue[i..])
      {
        i := i - 1;
        assert messageQueue[i..][1..] == messageQueue[i + 1..];
        replay := replay + [ChatSend(Caller, messageQueue[i])];
      }
      assert messageQueue[0..] == messageQueue;
      sends := sends + replay + RequestSetNowPlaying(nowPlaying);
    }

    /**
     * OnDisconnectedAsync (lines 56-66): a recorded duplicate connection only drops its id;
     * any other connection takes its user offline and tells everyone.
     */
    method OnDisconnected(user: string, connectionId: string) returns (sends: seq<Send>)
      modifies registry
      ensures connectionId in old(registry.duplicatedConnectionIds) ==>
        && registry.duplicatedConnectionIds == RemoveFirst(old(registry.duplicatedConnectionIds), connectionId)
        && registry.onlineUsers == old(registry.onlineUsers)
        && sends == []
      ensures connectionId !in old(registry.duplicatedConnectionIds) ==>
        && registry.duplicatedConnectionIds == old(registry.duplicatedConnectionIds)
        && registry.onlineUsers == old(registry.onlineUsers) - {user}
        && sends == [Send(All, OnlineUserLogout(user))]
    {
      if connectionId in registry.duplicatedConnectionIds {
        registry.duplicatedConnectionIds := RemoveFirst(registry.duplicatedConnectionIds, connectionId);
        return [];
      }
      registry.onlineUsers := registry.onlineUsers - {user};
      sends := [Send(All, OnlineUserLogout(user))];
    }

    /** ChatSay (lines 124-138): the message goes to the front, the oldest fall off the back. */
    method ChatSay(name: string, content: string, timestamp: int) returns (sends: seq<Send>)
      requires Valid()
      modifies this
      ensures Valid()
      ensures messageQueue == KeepNewest([ChatEntry(name, content, timestamp)] + old(messageQueue))
      ensures sends == [Send(All, NewChat(name, content, timestamp))]
    {
      var entry := ChatEntry(name, content, timestamp);
      var added := [entry] + messageQueue;
      messageQueue := added;
      while |messageQueue| > MaxChatLog
        invariant |messageQueue| <= |added| && messageQueue == added[..|messageQueue|]
        invariant |messageQueue| >= MaxChatLog || |messageQueue| == |added|
      {
        messageQueue := messageQueue[..|messageQueue| - 1];
      }
      sends := [ChatSend(All, entry)];
    }
  }
}
