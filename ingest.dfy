/** Paginated, time-windowed collection of chats and their messages. The HTTP
    layer is an input: an endpoint is a function from the `offset` query
    parameter to the response the server gives for that page. */
module Ingest {
  import opened Wrappers
  import opened Seqs
  import opened Records
  import opened TimeWindow

  /** Page size and offset cap of the chat listing. */
  const ChatsPageLimit := 50
  const MaxChatsOffset := 1000
  /** Offsets 0, 50, ..., 1000: at most this many chat pages are requested. */
  const MaxChatRequests := MaxChatsOffset / ChatsPageLimit + 1
  /** The default page size of the message listing, the one the collector uses. */
  const MessagesPageLimit := 100

  /** A response of the chat listing: the status code and the `chats` array
      of its body (empty when the key is missing). */
  datatype ChatsResponse = ChatsResponse(status: int, chats: seq<RawChat>)

  /** A response of the message listing: the status code and the `messages`
      array of its body (empty when the key is missing). */
  datatype MessagesResponse = MessagesResponse(status: int, messages: seq<Message>)

  /** The statuses `raise_for_status` raises on: client and server errors. */
  predicate IsHttpError(status: int) {
    400 <= status < 600
  }

  // ---------------------------------------------------------------------
  // Chat listing
  // ---------------------------------------------------------------------

  /** A chat page after which the listing goes on: not a 400 (taken as "no
      more pages"), not another error status, and not an empty batch. */
  predicate ChatsPageContinues(r: ChatsResponse) {
    r.status != 400 && !IsHttpError(r.status) && r.chats != []
  }

  /** The chats a page contributes to the selection pool: its batch when the
      listing goes on past it, nothing when the listing stops there. */
  function ChatsBatch(r: ChatsResponse): seq<RawChat> {
    if ChatsPageContinues(r) then r.chats else []
  }

  /** All chats read from the pages at `offsets`, in request order. */
  function FetchedChats(api: nat -> ChatsResponse, offsets: seq<nat>): seq<RawChat> {
    if offsets == [] then []
    else FetchedChats(api, offsets[..|offsets| - 1]) + ChatsBatch(api(offsets[|offsets| - 1]))
  }

  /** A chat is selected when it has a `created` time inside the window. */
  predicate ChatInWindow(w: Window, c: RawChat) {
    c.created.Some? && InWindow(w, c.created.value)
  }

  function ChatSelector(w: Window): RawChat -> bool {
    c => ChatInWindow(w, c)
  }

  /** What the chat listing yields once it has requested `offsets`: the error
      status when the last response raised, otherwise the in-window chats of
      every page read, in page order and in order within each page. */
  function ChatsOutcome(api: nat -> ChatsResponse, offsets: seq<nat>, w: Window): Result<seq<RawChat>, int>
    requires offsets != []
  {
    var last := api(offsets[|offsets| - 1]);
    if last.status != 400 && IsHttpError(last.status) then Failure(last.status)
    else Success(Filter(ChatSelector(w), FetchedChats(api, offsets)))
  }

  /** `offsets` are the requests a run of the chat listing makes: 0, 50, ...,
      at most up to the offset cap, moving on only past a page that continues
      and stopping at the first one that does not, unless the cap comes first. */
  predicate ChatsRun(api: nat -> ChatsResponse, offsets: seq<nat>) {
    && 1 <= |offsets| <= MaxChatRequests
    && (forall j :: 0 <= j < |offsets| ==> offsets[j] == j * ChatsPageLimit && offsets[j] <= MaxChatsOffset)
    && (forall j :: 0 <= j < |offsets| - 1 ==> ChatsPageContinues(api(offsets[j])))
    && (|offsets| < MaxChatRequests ==> !ChatsPageContinues(api(offsets[|offsets| - 1])))
  }

  /** The chat listing loop. Requests pages at offsets 0, 50, 100, ... while
      the offset is at most 1000; stops on a 400 or an empty batch and returns
      the selection, raises (here: `Failure`) on any other error status, and
      keeps only the chats whose `created` lies in the window. The second
      result is the sequence of offsets requested. */
  method GetChats(api: nat -> ChatsResponse, w: Window) returns (result: Result<seq<RawChat>, int>, offsets: seq<nat>)
    ensures ChatsRun(api, offsets)
    ensures result == ChatsOutcome(api, offsets, w)
  {
    var offset := 0;
    var selected: seq<RawChat> := [];
    offsets := [];
    while offset <= MaxChatsOffset
      invariant offset == |offsets| * ChatsPageLimit <= MaxChatsOffset + ChatsPageLimit
      invariant forall j :: 0 <= j < |offsets| ==> offsets[j] == j * ChatsPageLimit
      invariant forall j :: 0 <= j < |offsets| ==> ChatsPageContinues(api(offsets[j]))
      invariant selected == Filter(ChatSelector(w), FetchedChats(api, offsets))
      decreases MaxChatsOffset + ChatsPageLimit - offset
    {
      var resp := api(offset);
      FetchedChatsSnoc(api, offsets, offset, w);
      ghost var before := offsets;
      offsets := offsets + [offset];
      if !ChatsPageContinues(resp) {
        assert ChatsBatch(resp) == [];
        assert FetchedChats(api, offsets) == FetchedChats(api, before);
      }
      if resp.status == 400 {
        return Success(selected), offsets;
      }
      if IsHttpError(resp.status) {
        return Failure(resp.status), offsets;
      }
      var batch := resp.chats;
      if batch == [] {
        return Success(selected), offsets;
      }
      selected := AppendInWindow(selected, batch, w);
      offset := offset + ChatsPageLimit;
    }
    result := Success(selected);
  }

  /** Requesting one more page adds that page's contribution at the end. */
  lemma FetchedChatsSnoc(api: nat -> ChatsResponse, offsets: seq<nat>, o: nat, w: Window)
    ensures FetchedChats(api, offsets + [o]) == FetchedChats(api, offsets) + ChatsBatch(api(o))
    ensures Filter(ChatSelector(w), FetchedChats(api, offsets + [o]))
         == Filter(ChatSelector(w), FetchedChats(api, offsets)) + Filter(ChatSelector(w), ChatsBatch(api(o)))
  {
    assert (offsets + [o])[..|offsets|] == offsets;
    FilterConcat(ChatSelector(w), FetchedChats(api, offsets), ChatsBatch(api(o)));
  }

  /** The loop over one batch: appends to `selected` each chat of the batch
      whose `created` lies in the window, in batch order. */
  method AppendInWindow(selected: seq<RawChat>, batch: seq<RawChat>, w: Window) returns (r: seq<RawChat>)
    ensures r == selected + Filter(ChatSelector(w), batch)
  {
    r := selected;
    for i := 0 to |batch|
      invariant r == selected + Filter(ChatSelector(w), batch[..i])
    {
      var chat := batch[i];
      if chat.created.Some? && w.startTs <= chat.created.value <= w.endTs {
        r := r + [chat];
      }
      assert batch[..i + 1] == batch[..i] + [chat];
      FilterSnoc(ChatSelector(w), batch[..i], chat);
    }
    assert batch[..|batch|] == batch;
  }

  /** Every chat the listing reads was in one of the pages requested. */
  lemma {:induction false} FetchedChatsFromPages(api: nat -> ChatsResponse, offsets: seq<nat>, c: RawChat)
    requires c in FetchedChats(api, offsets)
    ensures exists j :: 0 <= j < |offsets| && c in api(offsets[j]).chats
  {
    var n := |offsets| - 1;
    if c in FetchedChats(api, offsets[..n]) {
      FetchedChatsFromPages(api, offsets[..n], c);
      var j :| 0 <= j < n && c in api(offsets[..n][j]).chats;
      assert offsets[..n][j] == offsets[j];
    } else {
      assert c in api(offsets[n]).chats;
    }
  }

  /** The chats selected by a successful listing are in the window, come from
      the pages read, and every in-window chat of a page read is selected. */
  lemma ChatsOutcomeSelection(api: nat -> ChatsResponse, offsets: seq<nat>, w: Window, selected: seq<RawChat>)
    requires offsets != [] && ChatsOutcome(api, offsets, w) == Success(selected)
    ensures forall c :: c in selected ==> ChatInWindow(w, c)
    ensures forall c :: c in selected ==> exists j :: 0 <= j < |offsets| && c in api(offsets[j]).chats
    ensures forall c :: c in FetchedChats(api, offsets) && ChatInWindow(w, c) ==> c in selected
  {
    var fetched := FetchedChats(api, offsets);
    assert selected == Filter(ChatSelector(w), fetched);
    forall c | c in selected ensures ChatInWindow(w, c) && exists j :: 0 <= j < |offsets| && c in api(offsets[j]).chats {
      FilterIn(ChatSelector(w), fetched, c);
      FetchedChatsFromPages(api, offsets, c);
    }
    forall c | c in fetched && ChatInWindow(w, c) ensures c in selected {
      FilterIn(ChatSelector(w), fetched, c);
    }
  }

  // ---------------------------------------------------------------------
  // Message listing
  // ---------------------------------------------------------------------

  /** A message page after which the listing stops: a status other than 200,
      an empty batch, or a batch shorter than the page size. */
  predicate MessagesPageStops(r: MessagesResponse, limit: nat) {
    r.status != 200 || r.messages == [] || |r.messages| < limit
  }

  /** The messages a page adds to the accumulation: its batch on a 200, nothing
      on any other status. */
  function MessagesBatch(r: MessagesResponse): seq<Message> {
    if r.status == 200 then r.messages else []
  }

  /** Everything accumulated from the pages at `offsets`, in request order. */
  function Received(api: nat -> MessagesResponse, offsets: seq<nat>): seq<Message> {
    if offsets == [] then []
    else Received(api, offsets[..|offsets| - 1]) + MessagesBatch(api(offsets[|offsets| - 1]))
  }

  /** The response to the `k`-th request of the message listing. */
  function PageAt(api: nat -> MessagesResponse, k: nat): MessagesResponse {
    api(k * MessagesPageLimit)
  }

  /** The server sends a stopping page at some point. Without this the loop of
      the message listing never ends. */
  ghost predicate MessagesTerminate(api: nat -> MessagesResponse) {
    exists k: nat :: MessagesPageStops(PageAt(api, k), MessagesPageLimit)
  }

  /** `offsets` are the requests a run of the message listing makes: 0, 100,
      ..., moving on only past a full 200 page and stopping at the first page
      that is not. */
  predicate MessagesRun(api: nat -> MessagesResponse, offsets: seq<nat>) {
    && |offsets| >= 1
    && (forall j :: 0 <= j < |offsets| ==> offsets[j] == j * MessagesPageLimit)
    && (forall j :: 0 <= j < |offsets| - 1 ==> !MessagesPageStops(api(offsets[j]), MessagesPageLimit))
    && MessagesPageStops(api(offsets[|offsets| - 1]), MessagesPageLimit)
  }

  /** The message listing loop, with its default page size of 100. Requests
      offsets 0, 100, 200, ..., moving on only after a full 200 page, and stops
      at the first page that has another status, is empty or is short. Never
      raises: on an error status it returns what it has so far. The second
      result is the sequence of offsets requested. */
  method GetMessages(api: nat -> MessagesResponse) returns (msgs: seq<Message>, offsets: seq<nat>)
    requires MessagesTerminate(api)
    ensures MessagesRun(api, offsets)
    ensures msgs == Received(api, offsets)
  {
    var limit := MessagesPageLimit;
    ghost var stop: nat :| MessagesPageStops(PageAt(api, stop), limit);
    var offset := 0;
    msgs, offsets := [], [];
    while true
      invariant offset == |offsets| * limit
      invariant forall j :: 0 <= j < |offsets| ==> offsets[j] == j * limit
      invariant forall j :: 0 <= j < |offsets| ==> !MessagesPageStops(api(offsets[j]), limit)
      invariant |offsets| <= stop
      invariant msgs == Received(api, offsets)
      decreases stop - |offsets|
    {
      var resp := api(offset);
      ghost var before := offsets;
      offsets := offsets + [offset];
      assert offsets[..|offsets| - 1] == before;
      if resp.status != 200 {
        return;
      }
      var batch := resp.messages;
      if batch == [] {
        return;
      }
      msgs := msgs + batch;
      if |batch| < limit {
        return;
      }
      assert PageAt(api, |before|) == resp;
      offset := offset + limit;
    }
  }

  /** Nothing is invented: every message returned comes from a 200 page read. */
  lemma {:induction false} ReceivedFromPages(api: nat -> MessagesResponse, offsets: seq<nat>, m: Message)
    requires m in Received(api, offsets)
    ensures exists j :: 0 <= j < |offsets| && api(offsets[j]).status == 200 && m in api(offsets[j]).messages
  {
    var n := |offsets| - 1;
    if m in Received(api, offsets[..n]) {
      ReceivedFromPages(api, offsets[..n], m);
      var j :| 0 <= j < n && api(offsets[..n][j]).status == 200 && m in api(offsets[..n][j]).messages;
      assert offsets[..n][j] == offsets[j];
    }
  }

  /** Every full page before the stop is kept whole: the accumulation holds at
      least `limit` messages per full page. */
  lemma {:induction false} ReceivedFullPages(api: nat -> MessagesResponse, offsets: seq<nat>)
    requires forall j :: 0 <= j < |offsets| ==> !MessagesPageStops(api(offsets[j]), MessagesPageLimit)
    ensures |Received(api, offsets)| >= |offsets| * MessagesPageLimit
  {
    if offsets != [] {
      var n := |offsets| - 1;
      ReceivedFullPages(api, offsets[..n]);
      assert !MessagesPageStops(api(offsets[n]), MessagesPageLimit);
    }
  }

  // ---------------------------------------------------------------------
  // Collector
  // ---------------------------------------------------------------------

  /** A message is kept when its `created` is truthy (present and not 0) and
      lies in the window. */
  predicate MessageKept(w: Window, m: Message) {
    m.created.Some? && m.created.value != 0 && InWindow(w, m.created.value)
  }

  function MessageSelector(w: Window): Message -> bool {
    m => MessageKept(w, m)
  }

  /** The in-window messages of one chat, in their original order. */
  function KeptMessages(w: Window, msgs: seq<Message>): (r: seq<Message>)
    ensures |r| <= |msgs|
    ensures forall m :: m in r <==> m in msgs && MessageKept(w, m)
  {
    KeptExactly(w, msgs);
    Filter(MessageSelector(w), msgs)
  }

  lemma KeptExactly(w: Window, msgs: seq<Message>)
    ensures forall m :: m in Filter(MessageSelector(w), msgs) <==> m in msgs && MessageKept(w, m)
  {
    forall m ensures m in Filter(MessageSelector(w), msgs) <==> m in msgs && MessageKept(w, m) {
      FilterIn(MessageSelector(w), msgs, m);
    }
  }

  /** One finished fetch: the chat it was submitted for and the messages the
      listing returned. */
  datatype Completion = Completion(chat: RawChat, messages: seq<Message>)

  /** Handling one finished fetch: the chat is stored under its id, overwriting
      an earlier entry, when some of its messages are in the window; otherwise
      the map is left as it was. No other key is touched. */
  function Store(dialogs: map<string, ChatRecord>, c: Completion, w: Window): (r: map<string, ChatRecord>)
    ensures KeptMessages(w, c.messages) != [] ==> c.chat.id in r && r[c.chat.id] == ChatRecord(c.chat, KeptMessages(w, c.messages))
    ensures KeptMessages(w, c.messages) == [] ==> r == dialogs
    ensures forall id :: id != c.chat.id ==> (id in r <==> id in dialogs)
    ensures forall id :: id != c.chat.id && id in r ==> r[id] == dialogs[id]
  {
    var kept := KeptMessages(w, c.messages);
    if kept != [] then dialogs[c.chat.id := ChatRecord(c.chat, kept)] else dialogs
  }

  /** The completion at index `i` is the last one among the first `n` that
      stores something under its chat's id. */
  predicate LastStored(done: seq<Completion>, w: Window, i: int, n: int)
    requires 0 <= i < n <= |done|
  {
    && KeptMessages(w, done[i].messages) != []
    && forall j :: i < j < n && done[j].chat.id == done[i].chat.id ==> KeptMessages(w, done[j].messages) == []
  }

  /** Stored entries are well formed: under the chat's own id, with a non-empty
      list of in-window messages. */
  predicate WellFormedDialogs(dialogs: map<string, ChatRecord>, w: Window) {
    forall id :: id in dialogs ==>
      && dialogs[id].meta.id == id
      && dialogs[id].messages != []
      && forall m :: m in dialogs[id].messages ==> MessageKept(w, m)
  }

  /** The collector's state after the first `n` completions: a chat id is a
      key exactly when one of them kept a message for it, the entry under it
      comes from the last such completion, and every entry is well formed. */
  ghost predicate CollectedUpTo(done: seq<Completion>, w: Window, n: int, dialogs: map<string, ChatRecord>)
    requires 0 <= n <= |done|
  {
    && (forall id :: id in dialogs <==> exists i :: 0 <= i < n && done[i].chat.id == id && KeptMessages(w, done[i].messages) != [])
    && (forall i :: 0 <= i < n && LastStored(done, w, i, n) ==>
          done[i].chat.id in dialogs && dialogs[done[i].chat.id] == ChatRecord(done[i].chat, KeptMessages(w, done[i].messages)))
    && (forall id :: id in dialogs ==> StoredFrom(done, w, n, dialogs[id]))
    && WellFormedDialogs(dialogs, w)
  }

  /** `rec` is what one of the first `n` completions would store. */
  ghost predicate StoredFrom(done: seq<Completion>, w: Window, n: int, rec: ChatRecord)
    requires 0 <= n <= |done|
  {
    exists i :: 0 <= i < n && rec == ChatRecord(done[i].chat, KeptMessages(w, done[i].messages))
  }

  /** Storing completion `n` takes the collector's state from the first `n`
      completions to the first `n + 1`. */
  lemma StoreStep(done: seq<Completion>, w: Window, n: int, dialogs: map<string, ChatRecord>)
    requires 0 <= n < |done| && CollectedUpTo(done, w, n, dialogs)
    ensures CollectedUpTo(done, w, n + 1, Store(dialogs, done[n], w))
  {
    StoreKeys(done, w, n, dialogs);
    StoreLast(done, w, n, dialogs);
    StoreWellFormed(dialogs, done[n], w);
    StoreProvenance(done, w, n, dialogs);
  }

  lemma StoreProvenance(done: seq<Completion>, w: Window, n: int, dialogs: map<string, ChatRecord>)
    requires 0 <= n < |done|
    requires forall id :: id in dialogs ==> StoredFrom(done, w, n, dialogs[id])
    ensures var r := Store(dialogs, done[n], w);
      forall id :: id in r ==> StoredFrom(done, w, n + 1, r[id])
  {
    var r := Store(dialogs, done[n], w);
    forall id | id in r ensures StoredFrom(done, w, n + 1, r[id]) {
      if id in dialogs && r[id] == dialogs[id] {
        var i :| 0 <= i < n && dialogs[id] == ChatRecord(done[i].chat, KeptMessages(w, done[i].messages));
        assert 0 <= i < n + 1 && r[id] == ChatRecord(done[i].chat, KeptMessages(w, done[i].messages));
      } else {
        assert r[id] == ChatRecord(done[n].chat, KeptMessages(w, done[n].messages));
      }
    }
  }

  lemma StoreKeys(done: seq<Completion>, w: Window, n: int, dialogs: map<string, ChatRecord>)
    requires 0 <= n < |done|
    requires forall id :: id in dialogs <==> exists i :: 0 <= i < n && done[i].chat.id == id && KeptMessages(w, done[i].messages) != []
    ensures var r := Store(dialogs, done[n], w);
      forall id :: id in r <==> exists i :: 0 <= i < n + 1 && done[i].chat.id == id && KeptMessages(w, done[i].messages) != []
  {
    var c := done[n];
    var r := Store(dialogs, c, w);
    forall id ensures id in r <==> exists i :: 0 <= i < n + 1 && done[i].chat.id == id && KeptMessages(w, done[i].messages) != [] {
      if id == c.chat.id && KeptMessages(w, c.messages) != [] {
        assert done[n].chat.id == id;
      }
    }
  }

  lemma StoreLast(done: seq<Completion>, w: Window, n: int, dialogs: map<string, ChatRecord>)
    requires 0 <= n < |done|
    requires forall i :: 0 <= i < n && LastStored(done, w, i, n) ==>
      done[i].chat.id in dialogs && dialogs[done[i].chat.id] == ChatRecord(done[i].chat, KeptMessages(w, done[i].messages))
    ensures var r := Store(dialogs, done[n], w);
      forall i :: 0 <= i < n + 1 && LastStored(done, w, i, n + 1) ==>
        done[i].chat.id in r && r[done[i].chat.id] == ChatRecord(done[i].chat, KeptMessages(w, done[i].messages))
  {
    var r := Store(dialogs, done[n], w);
    forall i | 0 <= i < n + 1 && LastStored(done, w, i, n + 1)
      ensures done[i].chat.id in r && r[done[i].chat.id] == ChatRecord(done[i].chat, KeptMessages(w, done[i].messages))
    {
      if i < n {
        assert LastStored(done, w, i, n);
      }
    }
  }

  lemma StoreWellFormed(dialogs: map<string, ChatRecord>, c: Completion, w: Window)
    requires WellFormedDialogs(dialogs, w)
    ensures WellFormedDialogs(Store(dialogs, c, w), w)
  {
    var r := Store(dialogs, c, w);
    if KeptMessages(w, c.messages) != [] {
      forall m | m in r[c.chat.id].messages ensures MessageKept(w, m) {
        FilterIn(MessageSelector(w), c.messages, m);
      }
    }
  }

  /** The collector's loop over finished fetches, in the order they complete.
      A chat id is a key exactly when some completion for it kept a message,
      and its entry comes from the last such completion. */
  method CollectDialogs(done: seq<Completion>, w: Window) returns (dialogs: map<string, ChatRecord>)
    ensures forall id :: id in dialogs <==> exists i :: 0 <= i < |done| && done[i].chat.id == id && KeptMessages(w, done[i].messages) != []
    ensures forall i :: 0 <= i < |done| && LastStored(done, w, i, |done|) ==>
      done[i].chat.id in dialogs && dialogs[done[i].chat.id] == ChatRecord(done[i].chat, KeptMessages(w, done[i].messages))
    ensures forall id :: id in dialogs ==> exists i :: 0 <= i < |done| && dialogs[id].meta == done[i].chat
    ensures WellFormedDialogs(dialogs, w)
  {
    dialogs := map[];
    for n := 0 to |done|
      invariant CollectedUpTo(done, w, n, dialogs)
    {
      StoreStep(done, w, n, dialogs);
      dialogs := Store(dialogs, done[n], w);
    }
    forall id | id in dialogs ensures exists i :: 0 <= i < |done| && dialogs[id].meta == done[i].chat {
      assert StoredFrom(done, w, |done|, dialogs[id]);
    }
  }

  /** `order` lists each of `0 .. n - 1` exactly once: an order in which `n`
      submitted fetches can finish. */
  predicate IsCompletionOrder(order: seq<nat>, n: nat) {
    && |order| == n
    && (forall k :: 0 <= k < n ==> order[k] < n)
    && (forall k, l :: 0 <= k < l < n ==> order[k] != order[l])
  }

  /** The fetch of every listed chat's messages, submitted in list order. */
  method FetchEach(listed: seq<RawChat>, messagesApi: string -> (nat -> MessagesResponse))
    returns (fetched: seq<seq<Message>>, ghost msgOffsets: seq<seq<nat>>)
    requires forall id :: MessagesTerminate(messagesApi(id))
    ensures |fetched| == |listed| && |msgOffsets| == |listed|
    ensures forall i :: 0 <= i < |listed| ==> MessagesRun(messagesApi(listed[i].id), msgOffsets[i])
    ensures forall i :: 0 <= i < |listed| ==> fetched[i] == Received(messagesApi(listed[i].id), msgOffsets[i])
  {
    fetched, msgOffsets := [], [];
    for i := 0 to |listed|
      invariant |fetched| == i && |msgOffsets| == i
      invariant forall j :: 0 <= j < i ==> MessagesRun(messagesApi(listed[j].id), msgOffsets[j])
      invariant forall j :: 0 <= j < i ==> fetched[j] == Received(messagesApi(listed[j].id), msgOffsets[j])
    {
      var msgs, offs := GetMessages(messagesApi(listed[i].id));
      fetched := fetched + [msgs];
      msgOffsets := msgOffsets + [offs];
    }
  }

  /** The finished fetches in the order they complete: the `k`-th to finish
      is fetch `finish[k]`. */
  method InCompletionOrder(listed: seq<RawChat>, fetched: seq<seq<Message>>, finish: seq<nat>)
    returns (completed: seq<Completion>)
    requires |fetched| == |listed| && IsCompletionOrder(finish, |listed|)
    ensures |completed| == |listed|
    ensures forall k :: 0 <= k < |completed| ==> completed[k] == Completion(listed[finish[k]], fetched[finish[k]])
  {
    completed := [];
    for k := 0 to |finish|
      invariant |completed| == k
      invariant forall l :: 0 <= l < k ==> completed[l] == Completion(listed[finish[l]], fetched[finish[l]])
    {
      var i := finish[k];
      completed := completed + [Completion(listed[i], fetched[i])];
    }
  }

  /** What a run fetched and in which order it stored it: each listed chat's
      message listing ran to its stop, and the `k`-th completion is the chat
      `finish[k]` with everything its listing received. */
  ghost predicate RunRecorded(listed: seq<RawChat>, messagesApi: string -> (nat -> MessagesResponse), finish: seq<nat>,
                              msgOffsets: seq<seq<nat>>, done: seq<Completion>)
  {
    && |msgOffsets| == |listed| && |done| == |listed| && IsCompletionOrder(finish, |listed|)
    && (forall i :: 0 <= i < |listed| ==> MessagesRun(messagesApi(listed[i].id), msgOffsets[i]))
    && (forall k :: 0 <= k < |done| ==>
          done[k] == Completion(listed[finish[k]], Received(messagesApi(listed[finish[k]].id), msgOffsets[finish[k]])))
  }

  /** The whole collection: list the chats in the window, fetch each chat's
      messages (one fetch per chat, submitted in list order), then store the
      finished fetches in the order they complete, `order(n)` for `n` fetches.
      A raised chat-listing error ends the run with that status. The ghost
      results record the run: the chat-listing requests, the message-listing
      requests of each listed chat, and the completions in the order they
      were stored. */
  method FetchAllDialogs(chatsApi: nat -> ChatsResponse, messagesApi: string -> (nat -> MessagesResponse),
                         order: nat -> seq<nat>, startMidnight: int, endMidnight: int)
    returns (result: Result<map<string, ChatRecord>, int>,
             ghost chatOffsets: seq<nat>, ghost msgOffsets: seq<seq<nat>>, ghost done: seq<Completion>)
    requires forall id :: MessagesTerminate(messagesApi(id))
    requires forall n: nat :: IsCompletionOrder(order(n), n)
    ensures ChatsRun(chatsApi, chatOffsets)
    ensures result.Failure? <==> ChatsOutcome(chatsApi, chatOffsets, MakeWindow(startMidnight, endMidnight)).Failure?
    ensures result.Failure? ==>
      && result.error == ChatsOutcome(chatsApi, chatOffsets, MakeWindow(startMidnight, endMidnight)).error
      && IsHttpError(result.error) && result.error != 400
    ensures result.Success? ==>
      var listed := ChatsOutcome(chatsApi, chatOffsets, MakeWindow(startMidnight, endMidnight)).value;
      RunRecorded(listed, messagesApi, order(|listed|), msgOffsets, done)
    ensures result.Success? ==>
      var w := MakeWindow(startMidnight, endMidnight);
      && (forall id :: id in result.value <==>
            exists i :: 0 <= i < |done| && done[i].chat.id == id && KeptMessages(w, done[i].messages) != [])
      && (forall i :: 0 <= i < |done| && LastStored(done, w, i, |done|) ==>
            done[i].chat.id in result.value
            && result.value[done[i].chat.id] == ChatRecord(done[i].chat, KeptMessages(w, done[i].messages)))
      && WellFormedDialogs(result.value, w)
    ensures result.Success? ==> forall id :: id in result.value ==> ChatInWindow(MakeWindow(startMidnight, endMidnight), result.value[id].meta)
  {
    var w := MakeWindow(startMidnight, endMidnight);
    var chats, offsets := GetChats(chatsApi, w);
    chatOffsets := offsets;
    msgOffsets, done := [], [];
    if chats.Failure? {
      return Failure(chats.error), chatOffsets, msgOffsets, done;
    }
    var listed := chats.value;
    ChatsOutcomeSelection(chatsApi, offsets, w, listed);
    var fetched;
    fetched, msgOffsets := FetchEach(listed, messagesApi);
    var finish := order(|listed|);
    var completed := InCompletionOrder(listed, fetched, finish);
    done := completed;
    assert RunRecorded(listed, messagesApi, finish, msgOffsets, done);
    var dialogs := CollectDialogs(completed, w);
    forall id | id in dialogs ensures ChatInWindow(w, dialogs[id].meta) {
      var i :| 0 <= i < |done| && dialogs[id].meta == done[i].chat;
      assert done[i].chat in listed;
    }
    return Success(dialogs), chatOffsets, msgOffsets, done;
  }
}
