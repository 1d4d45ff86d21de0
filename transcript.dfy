/** Rebuilding one chat's transcript: the author roster, the stable sort by
    `created`, and one rendered line per message that has text. */
module Transcript {
  import opened Wrappers
  import opened Seqs
  import opened Records
  import opened Text

  /** The author label of the account's own messages. */
  const ManagerLabel := "🏢 Менеджер"
  /** The marker put before a counterpart's name. */
  const ClientMarker := "👤 "

  // ---------------------------------------------------------------------
  // Sorting by `created`
  // ---------------------------------------------------------------------

  /** The sort key `m.get("created", 0)`: a missing time sorts as 0. */
  function CreatedKey(m: Message): int {
    m.created.GetOr(0)
  }

  predicate SortedByCreated(s: seq<Message>) {
    forall i, j :: 0 <= i < j < |s| ==> CreatedKey(s[i]) <= CreatedKey(s[j])
  }

  /** Inserts `x` into `t` in front of the first element whose key is not
      smaller than `x`'s, so `x` lands ahead of the elements with an equal
      key. */
  function InsertByCreated(x: Message, t: seq<Message>): (r: seq<Message>)
    ensures multiset(r) == multiset(t) + multiset{x}
  {
    if t == [] || CreatedKey(x) <= CreatedKey(t[0]) then [x] + t
    else
      assert t == [t[0]] + t[1..];
      [t[0]] + InsertByCreated(x, t[1..])
  }

  lemma {:induction false} InsertSorted(x: Message, t: seq<Message>)
    requires SortedByCreated(t)
    ensures SortedByCreated(InsertByCreated(x, t))
  {
    if t != [] && CreatedKey(x) > CreatedKey(t[0]) {
      var u := InsertByCreated(x, t[1..]);
      InsertSorted(x, t[1..]);
      forall i | 0 <= i < |u| ensures CreatedKey(t[0]) <= CreatedKey(u[i]) {
        assert u[i] in multiset(u);
        if u[i] != x {
          assert u[i] in t[1..];
        }
      }
    }
  }

  /** `sorted(messages, key=lambda m: m.get("created", 0))`: an insertion sort
      standing in for Python's stable sort. */
  function SortByCreated(s: seq<Message>): (r: seq<Message>)
    ensures SortedByCreated(r)
    ensures multiset(r) == multiset(s)
  {
    if s == [] then []
    else
      var t := SortByCreated(s[1..]);
      InsertSorted(s[0], t);
      assert s == [s[0]] + s[1..];
      InsertByCreated(s[0], t)
  }

  /** The messages whose sort key is `k`. */
  function WithCreatedKey(k: int): Message -> bool {
    m => CreatedKey(m) == k
  }

  /** Insertion moves `x` only past elements with a strictly smaller key, so
      among the elements of any one key `x` stays first. */
  lemma {:induction false} InsertKeepsTies(x: Message, t: seq<Message>, k: int)
    ensures Filter(WithCreatedKey(k), InsertByCreated(x, t)) == Filter(WithCreatedKey(k), [x] + t)
  {
    if t != [] && CreatedKey(x) > CreatedKey(t[0]) {
      InsertKeepsTies(x, t[1..], k);
      FilterSwapHead(WithCreatedKey(k), x, t[0], InsertByCreated(x, t[1..]), t[1..]);
      assert t == [t[0]] + t[1..];
    }
  }

  /** The sort is stable: the messages of any one sort key keep their input
      order. */
  lemma {:induction false} SortIsStable(s: seq<Message>, k: int)
    ensures Filter(WithCreatedKey(k), SortByCreated(s)) == Filter(WithCreatedKey(k), s)
  {
    if s != [] {
      SortIsStable(s[1..], k);
      InsertKeepsTies(s[0], SortByCreated(s[1..]), k);
      assert ([s[0]] + SortByCreated(s[1..]))[1..] == SortByCreated(s[1..]);
    }
  }

  // ---------------------------------------------------------------------
  // Roster
  // ---------------------------------------------------------------------

  /** The display name of a roster entry: its `name`, or `User_<id>` when it
      has none. */
  function RosterName(u: User): (r: string)
    requires u.id.Some?
    ensures u.name.None? ==> r == "User_" + IntToString(u.id.value)
    ensures u.name.Some? ==> r == u.name.value
  {
    u.name.GetOr("User_" + IntToString(u.id.value))
  }

  /** The `user_names` map after the roster loop: each entry with an `id`
      sets the name under that id, a later entry overwriting an earlier one. */
  function Roster(users: seq<User>): map<int, string> {
    if users == [] then map[]
    else
      var names := Roster(users[..|users| - 1]);
      var u := users[|users| - 1];
      if u.id.Some? then names[u.id.value := RosterName(u)] else names
  }

  /** The entry of `users` at index `i` is the last one with id `id`. */
  predicate LastWithId(users: seq<User>, i: int, id: int)
    requires 0 <= i < |users|
  {
    users[i].id == Some(id) && forall j :: i < j < |users| ==> users[j].id != Some(id)
  }

  /** An id has a name exactly when some roster entry carries it. */
  lemma {:induction false} RosterHasId(users: seq<User>, id: int)
    ensures id in Roster(users) <==> exists i :: 0 <= i < |users| && users[i].id == Some(id)
  {
    if users != [] {
      var n := |users| - 1;
      RosterHasId(users[..n], id);
      if id in Roster(users[..n]) {
        var i :| 0 <= i < n && users[..n][i].id == Some(id);
        assert users[i].id == Some(id);
      }
      forall i | 0 <= i < n && users[i].id == Some(id) ensures users[..n][i].id == Some(id) {}
    }
  }

  /** The name under an id comes from the last roster entry carrying it. */
  lemma {:induction false} RosterLastWins(users: seq<User>, i: int, id: int)
    requires 0 <= i < |users| && LastWithId(users, i, id)
    ensures id in Roster(users) && Roster(users)[id] == RosterName(users[i])
  {
    var n := |users| - 1;
    if i < n {
      assert LastWithId(users[..n], i, id);
      RosterLastWins(users[..n], i, id);
    }
  }

  /** The roster loop: fills `user_names` from the chat's `users`. */
  method BuildRoster(users: seq<User>) returns (names: map<int, string>)
    ensures names == Roster(users)
  {
    names := map[];
    for i := 0 to |users|
      invariant names == Roster(users[..i])
    {
      var u := users[i];
      assert users[..i + 1][..i] == users[..i];
      if u.id.Some? {
        names := names[u.id.value := RosterName(u)];
      }
    }
    assert users[..|users|] == users;
  }

  // ---------------------------------------------------------------------
  // Rendering
  // ---------------------------------------------------------------------

  /** `get_seller_id`: the account id at `dialog.context.value.user_id`, or -1
      when that path is missing. */
  function GetSellerId(chat: RawChat): (r: int)
    ensures chat.contextUserId.None? ==> r == -1
    ensures chat.contextUserId.Some? ==> r == chat.contextUserId.value
  {
    chat.contextUserId.GetOr(-1)
  }

  /** Python's rendering of `m.get("author_id")`: the number, or `None`. */
  function AuthorIdText(a: Option<int>): string {
    match a
    case Some(v) => IntToString(v)
    case None => "None"
  }

  /** The author label of a message: the manager label for the account's own
      messages, otherwise the client marker and the roster name, falling back
      to the raw author id. */
  function AuthorLabel(m: Message, seller: int, names: map<int, string>): (r: string)
    ensures r == ManagerLabel <==> m.authorId == Some(seller)
    ensures m.authorId != Some(seller) ==> |r| >= |ClientMarker| && r[..|ClientMarker|] == ClientMarker
  {
    assert ManagerLabel[0] != ClientMarker[0];
    if m.authorId == Some(seller) then ManagerLabel
    else if m.authorId.Some? && m.authorId.value in names then ClientMarker + names[m.authorId.value]
    else ClientMarker + AuthorIdText(m.authorId)
  }

  /** What the label of a message is, given the roster it was built from. */
  lemma AuthorLabelFromRoster(m: Message, seller: int, users: seq<User>)
    ensures m.authorId == Some(seller) ==> AuthorLabel(m, seller, Roster(users)) == ManagerLabel
    ensures forall i :: 0 <= i < |users| && m.authorId != Some(seller) && m.authorId.Some? && LastWithId(users, i, m.authorId.value) ==>
      AuthorLabel(m, seller, Roster(users)) == ClientMarker + RosterName(users[i])
    ensures m.authorId != Some(seller) && m.authorId.Some? && (forall i :: 0 <= i < |users| ==> users[i].id != m.authorId) ==>
      AuthorLabel(m, seller, Roster(users)) == ClientMarker + IntToString(m.authorId.value)
    ensures m.authorId.None? ==> AuthorLabel(m, seller, Roster(users)) == ClientMarker + "None"
  {
    if m.authorId.Some? {
      RosterHasId(users, m.authorId.value);
      forall i | 0 <= i < |users| && LastWithId(users, i, m.authorId.value)
        ensures m.authorId.value in Roster(users) && Roster(users)[m.authorId.value] == RosterName(users[i])
      {
        RosterLastWins(users, i, m.authorId.value);
      }
    }
  }

  /** A message is rendered when its `content.text` is present and non-empty. */
  predicate HasText(m: Message) {
    m.text.Some? && m.text.value != ""
  }

  /** The bracketed time: the formatted local time when `created` is truthy,
      empty otherwise. `fmt` stands for `fromtimestamp(ts).strftime(...)`. */
  function TimestampText(m: Message, fmt: int -> string): (r: string)
    ensures m.created.None? || m.created.value == 0 ==> r == ""
    ensures m.created.Some? && m.created.value != 0 ==> r == fmt(m.created.value)
  {
    if m.created.Some? && m.created.value != 0 then fmt(m.created.value) else ""
  }

  /** The line of one message: `[ts] author: text` and a newline, or nothing
      for a message without text. */
  function Line(m: Message, seller: int, names: map<int, string>, fmt: int -> string): (r: string)
    ensures r == [] <==> !HasText(m)
    ensures r != [] ==> r[0] == '[' && r[|r| - 1] == '\n'
  {
    if HasText(m) then "[" + TimestampText(m, fmt) + "] " + AuthorLabel(m, seller, names) + ": " + m.text.value + "\n"
    else ""
  }

  /** No message of `msgs` has text. */
  predicate NoText(msgs: seq<Message>) {
    forall i :: 0 <= i < |msgs| ==> !HasText(msgs[i])
  }

  function LineOf(seller: int, names: map<int, string>, fmt: int -> string): Message -> string {
    m => Line(m, seller, names, fmt)
  }

  /** The transcript of a message sequence: the lines of its messages, in
      order. */
  function Render(msgs: seq<Message>, seller: int, names: map<int, string>, fmt: int -> string): string {
    ConcatMap(LineOf(seller, names, fmt), msgs)
  }

  /** The transcript is empty exactly when no message has text. */
  lemma RenderEmpty(msgs: seq<Message>, seller: int, names: map<int, string>, fmt: int -> string)
    ensures Render(msgs, seller, names, fmt) == [] <==> NoText(msgs)
  {
    ConcatMapEmpty(LineOf(seller, names, fmt), msgs);
    assert forall i :: 0 <= i < |msgs| ==> (LineOf(seller, names, fmt)(msgs[i]) == [] <==> !HasText(msgs[i]));
  }

  /** A message contributes exactly its own line, wherever it stands: nothing
      when it has no text, one newline-terminated line when it has. */
  lemma RenderOneLine(a: seq<Message>, m: Message, b: seq<Message>, seller: int, names: map<int, string>, fmt: int -> string)
    ensures Render(a + [m] + b, seller, names, fmt)
         == Render(a, seller, names, fmt) + Line(m, seller, names, fmt) + Render(b, seller, names, fmt)
  {
    ConcatMapMiddle(LineOf(seller, names, fmt), a, m, b);
  }

  /** A message without text leaves no trace in the transcript, wherever it
      stands. */
  lemma RenderSkipsTextless(a: seq<Message>, m: Message, b: seq<Message>, seller: int, names: map<int, string>, fmt: int -> string)
    requires !HasText(m)
    ensures Render(a + [m] + b, seller, names, fmt) == Render(a + b, seller, names, fmt)
  {
    RenderOneLine(a, m, b, seller, names, fmt);
    ConcatMapConcat(LineOf(seller, names, fmt), a, b);
  }

  /** The transcript loop: appends the line of each message with text. */
  method BuildTranscript(msgs: seq<Message>, seller: int, names: map<int, string>, fmt: int -> string) returns (fullText: string)
    ensures fullText == Render(msgs, seller, names, fmt)
  {
    fullText := "";
    for i := 0 to |msgs|
      invariant fullText == Render(msgs[..i], seller, names, fmt)
    {
      var m := msgs[i];
      RenderOneLine(msgs[..i], m, [], seller, names, fmt);
      assert msgs[..i + 1] == msgs[..i] + [m] + [];
      if !HasText(m) {
        continue;
      }
      var ts := TimestampText(m, fmt);
      var author := AuthorLabel(m, seller, names);
      var line := "[" + ts + "] " + author + ": " + m.text.value + "\n";
      assert line == Line(m, seller, names, fmt);
      fullText := fullText + line;
    }
    assert msgs[..|msgs|] == msgs;
  }
}
