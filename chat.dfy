/**
 * The server's chat log against the client's chat panel. A hub that has run ChatSay for the
 * messages `ms` in order (starting from an empty log) holds HubLog(ms); a client that
 * received the same NewChat broadcasts shows ClientLog(ms). Both keep the latest 30
 * messages, one newest first and the other oldest first, and the replay a new connection
 * receives rebuilds the same panel.
 */
module ChatConsistency {
  import opened Hub
  import opened ClientQueue

  function Min(a: nat, b: nat): nat {
    if a <= b then a else b
  }

  function Reverse<T>(s: seq<T>): (r: seq<T>)
    ensures |r| == |s|
    ensures forall k :: 0 <= k < |s| ==> r[k] == s[|s| - 1 - k]
    decreases |s|
  {
    if s == [] then [] else Reverse(s[1..]) + [s[0]]
  }

  /** What the client keeps of a NewChat: the name and the content. */
  function Line(e: ChatEntry): ChatLine {
    ChatLine(e.name, e.content)
  }

  function Lines(es: seq<ChatEntry>): (r: seq<ChatLine>)
    ensures |r| == |es|
    ensures forall k :: 0 <= k < |es| ==> r[k] == Line(es[k])
    decreases |es|
  {
    if es == [] then [] else [Line(es[0])] + Lines(es[1..])
  }

  /** The hub's _messageQueue after ChatSay of each message of `ms`, in order. */
  function HubLog(ms: seq<ChatEntry>): seq<ChatEntry>
    decreases |ms|
  {
    if ms == [] then [] else KeepNewest([ms[|ms| - 1]] + HubLog(ms[..|ms| - 1]))
  }

  /** The client's chat panel after the NewChat callback for each message of `ms`, in order. */
  function ClientLog(ms: seq<ChatEntry>): seq<ChatLine>
    decreases |ms|
  {
    if ms == [] then [] else AppendChat(ClientLog(ms[..|ms| - 1]), Line(ms[|ms| - 1]))
  }

  /** The hub's log holds the latest min(|ms|, 30) messages of `ms`, newest first. */
  ghost predicate NewestFirst(log: seq<ChatEntry>, ms: seq<ChatEntry>) {
    |log| == Min(|ms|, MaxChatLog) && forall k :: 0 <= k < |log| ==> log[k] == ms[|ms| - 1 - k]
  }

  /** The client's panel holds the latest min(|ms|, 30) messages of `ms`, oldest first. */
  ghost predicate LatestInOrder(panel: seq<ChatLine>, ms: seq<ChatEntry>) {
    |panel| == Min(|ms|, ChatPanelSize) && forall k :: 0 <= k < |panel| ==> panel[k] == Line(ms[|ms| - |panel| + k])
  }

  /** One ChatSay keeps the hub's log newest first. */
  lemma HubStep(h: seq<ChatEntry>, p: seq<ChatEntry>, m: ChatEntry)
    requires NewestFirst(h, p)
    ensures NewestFirst(KeepNewest([m] + h), p + [m])
  {
    var ms := p + [m];
    var r := KeepNewest([m] + h);
    assert r == ([m] + h)[..|r|];
    forall k | 0 <= k < |r| ensures r[k] == ms[|ms| - 1 - k] {
      if k > 0 {
        assert r[k] == h[k - 1];
      }
    }
  }

  /** One NewChat callback keeps the client's panel latest and in order. */
  lemma ClientStep(c: seq<ChatLine>, p: seq<ChatEntry>, m: ChatEntry)
    requires LatestInOrder(c, p)
    ensures LatestInOrder(AppendChat(c, Line(m)), p + [m])
  {
    var ms := p + [m];
    var r := AppendChat(c, Line(m));
    var all := c + [Line(m)];
    assert r == all[|c| + 1 - |r|..];
    forall k | 0 <= k < |r| ensures r[k] == Line(ms[|ms| - |r| + k]) {
      var j := |c| + 1 - |r| + k;
      assert r[k] == all[j];
      if j < |c| {
        assert all[j] == c[j] == Line(p[|p| - |c| + j]);
      }
    }
  }

  /** The hub keeps the latest 30 messages, newest first. */
  lemma {:induction false} HubLogNewest(ms: seq<ChatEntry>)
    ensures NewestFirst(HubLog(ms), ms)
    decreases |ms|
  {
    if ms != [] {
      var p := ms[..|ms| - 1];
      HubLogNewest(p);
      assert ms == p + [ms[|ms| - 1]];
      HubStep(HubLog(p), p, ms[|ms| - 1]);
    }
  }

  /** The client keeps the latest 30 messages, oldest first. */
  lemma {:induction false} ClientLogLatest(ms: seq<ChatEntry>)
    ensures LatestInOrder(ClientLog(ms), ms)
    decreases |ms|
  {
    if ms != [] {
      var p := ms[..|ms| - 1];
      ClientLogLatest(p);
      assert ms == p + [ms[|ms| - 1]];
      ClientStep(ClientLog(p), p, ms[|ms| - 1]);
    }
  }

  /** The panel of a client that saw every broadcast is the hub's log reversed. */
  lemma ClientMirrorsHub(ms: seq<ChatEntry>)
    ensures ClientLog(ms) == Lines(Reverse(HubLog(ms)))
  {
    HubLogNewest(ms);
    ClientLogLatest(ms);
    var h := HubLog(ms);
    var c := ClientLog(ms);
    var l := Lines(Reverse(h));
    assert |c| == |l|;
    forall k | 0 <= k < |c| ensures c[k] == l[k] {
      assert Reverse(h)[k] == h[|h| - 1 - k];
      assert h[|h| - 1 - k] == ms[|ms| - 1 - (|h| - 1 - k)];
    }
  }

  /** The replay a new connection receives is the log reversed. */
  lemma ReplayIsReversedLog(log: seq<ChatEntry>)
    ensures |Replay(log)| == |log|
    ensures forall k :: 0 <= k < |log| ==> Replay(log)[k] == ChatSend(Caller, Reverse(log)[k])
  {
    ReplayOldestFirst(log);
  }

  /**
   * A client connecting after `ms` is sent the hub's log oldest first (ReplayIsReversedLog);
   * applying those NewChat messages gives it the same panel as a client that was there all
   * along.
   */
  lemma LateJoinerSeesSameChat(ms: seq<ChatEntry>)
    ensures ClientLog(Reverse(HubLog(ms))) == ClientLog(ms)
  {
    HubLogNewest(ms);
    ClientMirrorsHub(ms);
    ClientLogShort(Reverse(HubLog(ms)));
  }

  /** Fewer messages than the panel holds are all shown, in order. */
  lemma ClientLogShort(es: seq<ChatEntry>)
    requires |es| <= ChatPanelSize
    ensures ClientLog(es) == Lines(es)
  {
    ClientLogLatest(es);
    var c := ClientLog(es);
    assert |c| == |es|;
    forall k | 0 <= k < |c| ensures c[k] == Lines(es)[k] {
      assert c[k] == Line(es[|es| - |c| + k]);
    }
  }
}
