/**
 * The web client's mirror of the server state: the reducers its Connection callbacks apply
 * to the play queue, the online-user list and the chat panel. Each reducer returns a new
 * list built with concat, slice, filter, map and find.
 */
module ClientQueue {
  import opened Wrappers
  import opened MusicTypes

  /** The chat panel keeps this many messages. */
  const ChatPanelSize: nat := 30

  datatype QueueItem = QueueItem(actionId: string, music: Music, enqueuerName: string)
  datatype OnlineUser = OnlineUser(id: string, name: string)
  datatype ChatLine = ChatLine(name: string, content: string)

  // ------------------------------------------------------------------ list primitives

  /** Array.prototype.filter. */
  function Filter<T>(s: seq<T>, keep: T -> bool): (r: seq<T>)
    ensures |r| <= |s|
    decreases |s|
  {
    if s == [] then [] else (if keep(s[0]) then [s[0]] else []) + Filter(s[1..], keep)
  }

  /** Filter keeps exactly the elements that pass the test. */
  lemma {:induction false} FilterMembers<T>(s: seq<T>, keep: T -> bool, x: T)
    ensures x in Filter(s, keep) <==> x in s && keep(x)
    decreases |s|
  {
    if s != [] {
      FilterMembers(s[1..], keep, x);
      assert s == [s[0]] + s[1..];
    }
  }

  lemma {:induction false} FilterConcat<T>(a: seq<T>, b: seq<T>, keep: T -> bool)
    ensures Filter(a + b, keep) == Filter(a, keep) + Filter(b, keep)
    decreases |a|
  {
    if a != [] {
      var head := if keep(a[0]) then [a[0]] else [];
      assert (a + b)[0] == a[0] && (a + b)[1..] == a[1..] + b;
      FilterConcat(a[1..], b, keep);
      calc {
        Filter(a + b, keep);
        head + Filter(a[1..] + b, keep);
        head + (Filter(a[1..], keep) + Filter(b, keep));
        (head + Filter(a[1..], keep)) + Filter(b, keep);
        Filter(a, keep) + Filter(b, keep);
      }
    } else {
      assert a + b == b;
    }
  }

  lemma FilterMembersAll<T>(s: seq<T>, keep: T -> bool)
    ensures forall x :: x in Filter(s, keep) <==> x in s && keep(x)
  {
    forall x ensures x in Filter(s, keep) <==> x in s && keep(x) {
      FilterMembers(s, keep, x);
    }
  }

  /** Filtering with a test every element passes changes nothing. */
  lemma {:induction false} FilterKeepsAll<T>(s: seq<T>, keep: T -> bool)
    requires forall k :: 0 <= k < |s| ==> keep(s[k])
    ensures Filter(s, keep) == s
    decreases |s|
  {
    if s != [] {
      FilterKeepsAll(s[1..], keep);
    }
  }

  /** Array.prototype.find's index: the first element with that action id. */
  function FindAction(q: seq<QueueItem>, actionId: string): (r: Option<nat>)
    ensures r.Some? ==> r.value < |q| && q[r.value].actionId == actionId
    ensures r.Some? ==> forall j :: 0 <= j < r.value ==> q[j].actionId != actionId
    ensures r.None? <==> forall j :: 0 <= j < |q| ==> q[j].actionId != actionId
    decreases |q|
  {
    if q == [] then None
    else if q[0].actionId == actionId then Some(0)
    else match FindAction(q[1..], actionId)
      case None => None
      case Some(j) => Some(j + 1)
  }

  // ------------------------------------------------------------------ the play queue

  /** The enqueue callback (index.tsx:79-81). */
  function Enqueue(q: seq<QueueItem>, item: QueueItem): (r: seq<QueueItem>)
    ensures |r| == |q| + 1 && r[..|q|] == q && r[|q|] == item
  {
    q + [item]
  }

  /** The advance callback (index.tsx:82-84): `slice(1)`, which leaves an empty queue empty. */
  function Advance(q: seq<QueueItem>): (r: seq<QueueItem>)
    ensures q == [] ==> r == []
    ensures q != [] ==> |r| == |q| - 1 && forall k :: 0 <= k < |r| ==> r[k] == q[k + 1]
  {
    if q == [] then [] else q[1..]
  }

  /** The test `x => x.actionId !== actionId`. */
  function OtherAction(actionId: string): QueueItem -> bool {
    (x: QueueItem) => x.actionId != actionId
  }

  /** The entries whose action id differs, in their order. */
  function OtherActions(q: seq<QueueItem>, actionId: string): (r: seq<QueueItem>)
    ensures forall x :: x in r <==> x in q && x.actionId != actionId
  {
    FilterMembersAll(q, OtherAction(actionId));
    Filter(q, OtherAction(actionId))
  }

  /**
   * The promote callback (index.tsx:85-93): the first entry with the id, then every entry
   * without it. None when no entry has the id: `find(...)!` is undefined and reading its
   * music throws.
   */
  function Promote(q: seq<QueueItem>, actionId: string): (r: Option<seq<QueueItem>>)
    ensures r.None? <==> forall j :: 0 <= j < |q| ==> q[j].actionId != actionId
    ensures r.Some? ==> |r.value| >= 1 && r.value[0].actionId == actionId && r.value[0] in q
    ensures r.Some? ==> forall x :: x in r.value[1..] <==> x in q && x.actionId != actionId
    ensures r.Some? ==> FindAction(q, actionId).Some? && r.value[0] == q[FindAction(q, actionId).value]
    ensures r.Some? ==> r.value[1..] == Filter(q, OtherAction(actionId))
  {
    match FindAction(q, actionId)
    case None => None
    case Some(k) => Some([q[k]] + OtherActions(q, actionId))
  }

  ghost predicate UniqueActions(q: seq<QueueItem>) {
    forall i, j :: 0 <= i < j < |q| ==> q[i].actionId != q[j].actionId
  }

  /** A single element is kept exactly when it passes the test. */
  lemma FilterSingle<T>(x: T, keep: T -> bool)
    ensures Filter([x], keep) == if keep(x) then [x] else []
  {
    assert [x][1..] == [];
  }

  /** Filtering out one element that fails the test, among elements that pass it, removes just it. */
  lemma FilterDropsOne<T>(pre: seq<T>, x: T, post: seq<T>, keep: T -> bool)
    requires forall i :: 0 <= i < |pre| ==> keep(pre[i])
    requires forall i :: 0 <= i < |post| ==> keep(post[i])
    requires !keep(x)
    ensures Filter(pre + [x] + post, keep) == pre + post
  {
    FilterConcat(pre + [x], post, keep);
    FilterConcat(pre, [x], keep);
    FilterKeepsAll(pre, keep);
    FilterKeepsAll(post, keep);
    FilterSingle(x, keep);
    assert pre + [] == pre;
  }

  /** With distinct action ids, dropping entry k's id drops exactly entry k. */
  lemma OtherActionsUnique(q: seq<QueueItem>, k: nat)
    requires UniqueActions(q) && k < |q|
    ensures OtherActions(q, q[k].actionId) == q[..k] + q[k + 1..]
  {
    var keep := OtherAction(q[k].actionId);
    var pre, post := q[..k], q[k + 1..];
    assert q == pre + [q[k]] + post;
    forall i | 0 <= i < |pre| ensures keep(pre[i]) {
      assert pre[i] == q[i];
    }
    forall i | 0 <= i < |post| ensures keep(post[i]) {
      assert post[i] == q[k + 1 + i];
    }
    FilterDropsOne(pre, q[k], post, keep);
  }

  /** With distinct action ids, find returns the one entry with the id. */
  lemma FindUnique(q: seq<QueueItem>, k: nat)
    requires UniqueActions(q) && k < |q|
    ensures FindAction(q, q[k].actionId) == Some(k)
  {
  }

  /** Moving one element to the front keeps the multiset. */
  lemma MoveToFrontPermutes<T>(s: seq<T>, k: nat)
    requires k < |s|
    ensures multiset([s[k]] + s[..k] + s[k + 1..]) == multiset(s)
  {
    assert s == s[..k] + [s[k]] + s[k + 1..];
  }

  /**
   * With distinct action ids, promoting entry k moves just that entry to the front:
   * the others keep their order and the queue keeps its entries.
   */
  lemma PromoteMovesOne(q: seq<QueueItem>, k: nat)
    requires UniqueActions(q) && k < |q|
    ensures Promote(q, q[k].actionId) == Some([q[k]] + q[..k] + q[k + 1..])
    ensures multiset(Promote(q, q[k].actionId).value) == multiset(q)
  {
    FindUnique(q, k);
    OtherActionsUnique(q, k);
    MoveToFrontPermutes(q, k);
    assert Promote(q, q[k].actionId) == Some([q[k]] + OtherActions(q, q[k].actionId));
    assert [q[k]] + (q[..k] + q[k + 1..]) == [q[k]] + q[..k] + q[k + 1..];
  }

  // ------------------------------------------------------------------ online users

  /** The login callback (index.tsx:98-100). */
  function Login(users: seq<OnlineUser>, id: string, name: string): (r: seq<OnlineUser>)
    ensures |r| == |users| + 1 && r[..|users|] == users && r[|users|] == OnlineUser(id, name)
  {
    users + [OnlineUser(id, name)]
  }

  /** The logout callback (index.tsx:101-103): every entry with the id goes. */
  function Logout(users: seq<OnlineUser>, id: string): (r: seq<OnlineUser>)
    ensures forall u :: u in r <==> u in users && u.id != id
    ensures |r| <= |users|
  {
    FilterMembersAll(users, OtherUser(id));
    Filter(users, OtherUser(id))
  }

  /** The test `x => x.id !== id`. */
  function OtherUser(id: string): OnlineUser -> bool {
    (u: OnlineUser) => u.id != id
  }

  /** Logging in and out again leaves the list as it was, if the id was not listed. */
  lemma LoginLogout(users: seq<OnlineUser>, id: string, name: string)
    requires forall k :: 0 <= k < |users| ==> users[k].id != id
    ensures Logout(Login(users, id, name), id) == users
  {
    var keep := OtherUser(id);
    FilterConcat(users, [OnlineUser(id, name)], keep);
    FilterKeepsAll(users, keep);
    FilterSingle(OnlineUser(id, name), keep);
  }

  /** The rename callback (index.tsx:104-108). */
  function Rename(users: seq<OnlineUser>, id: string, newName: string): (r: seq<OnlineUser>)
    ensures |r| == |users|
    ensures forall k :: 0 <= k < |r| ==> r[k] == (if users[k].id == id then OnlineUser(id, newName) else users[k])
    decreases |users|
  {
    if users == [] then []
    else [if users[0].id == id then OnlineUser(id, newName) else users[0]] + Rename(users[1..], id, newName)
  }

  /** Renaming twice keeps only the second name; the set of ids never changes. */
  lemma RenameTwice(users: seq<OnlineUser>, id: string, a: string, b: string)
    ensures Rename(Rename(users, id, a), id, b) == Rename(users, id, b)
    ensures forall k :: 0 <= k < |users| ==> Rename(users, id, a)[k].id == users[k].id
  {
    var once := Rename(users, id, a);
    var twice := Rename(once, id, b);
    var direct := Rename(users, id, b);
    assert |twice| == |direct|;
    forall k | 0 <= k < |twice| ensures twice[k] == direct[k] {
      assert once[k].id == users[k].id;
    }
  }

  // ------------------------------------------------------------------ chat panel

  /** The chat callback (index.tsx:109-114): append, then `slice(-30)`. */
  function AppendChat(chat: seq<ChatLine>, line: ChatLine): (r: seq<ChatLine>)
    ensures |r| == if |chat| + 1 <= ChatPanelSize then |chat| + 1 else ChatPanelSize
    ensures r == (chat + [line])[|chat| + 1 - |r|..]
    ensures r[|r| - 1] == line
  {
    var all := chat + [line];
    if |all| <= ChatPanelSize then all else all[|all| - ChatPanelSize..]
  }
}
