/** The rule-based labelling of collected chats: a chat is a target (a real
    sales lead), a non-target, or ambiguous, judged from its rebuilt
    transcript and its messages. */
module Classify {
  import opened Wrappers
  import opened Seqs
  import opened Records
  import opened Text
  import opened Transcript

  /** Substrings that count as sales-intent hits. The entry written "cумма"
      begins with the Latin letter c, as in the program's `KEYWORDS` set. */
  const Keywords: set<string> := {
    "цена", "стоимость", "интересует", "хочу", "можно", "делаете", "заказать",
    "срок", "возможно", "оформить", "услуга", "помощь", "прайс", "нужно",
    "подскажите", "сделать", "звонок", "созвон", "номер", "контакт", "свяжитесь",
    "написать", "позвонить", "рассчитать", "расчет", "маркировка", "помогите",
    "оформление", "отправить", "скинуть", "код", "киз", "честный знак",
    "делаете ли вы", "итого к оплате", "тг", "вотсап", "телефон", "звонить", "+7",
    "cумма", "руб", "оплату произвел", "оплатил"
  }

  /** Substrings that rule a chat out whatever else it contains. */
  const Exclusions: set<string> := {"резюме", "кандидат проходит интервью", "не можем"}

  const MinKeywordMatches := 2
  const MinTextLength := 80
  /** A chat with more than this many messages and a long enough transcript is
      a target without any keyword. */
  const ManyMessages := 3
  /** A chat whose counterpart wrote fewer messages than this is ambiguous. */
  const MinClientMessages := 2

  /** Some exclusion phrase occurs in the (lower-cased) text. */
  function HasExclusion(lowered: string): (r: bool)
    ensures r <==> Contains(lowered, "резюме") || Contains(lowered, "кандидат проходит интервью") || Contains(lowered, "не можем")
  {
    exists e | e in Exclusions :: Contains(lowered, e)
  }

  /** The number of distinct keywords that occur in the (lower-cased) text. */
  function KeywordHits(lowered: string): (r: nat)
    ensures r <= |Keywords|
    ensures r == 0 <==> forall k :: k in Keywords ==> !Contains(lowered, k)
  {
    var found := set k | k in Keywords && Contains(lowered, k);
    SubsetSize(found, Keywords);
    assert forall k :: k in Keywords && Contains(lowered, k) ==> k in found;
    |found|
  }

  /** Every two distinct keywords found add up to enough hits. */
  lemma TwoKeywordsSuffice(lowered: string, k1: string, k2: string)
    requires k1 in Keywords && k2 in Keywords && k1 != k2
    requires Contains(lowered, k1) && Contains(lowered, k2)
    ensures KeywordHits(lowered) >= MinKeywordMatches
  {
    var found := set k | k in Keywords && Contains(lowered, k);
    assert {k1, k2} <= found;
    SubsetSize({k1, k2}, found);
  }

  /** A subset is no larger than its superset. */
  lemma {:induction false} SubsetSize<T>(a: set<T>, b: set<T>)
    requires a <= b
    ensures |a| <= |b|
    decreases a
  {
    if a != {} {
      var x :| x in a;
      SubsetSize(a - {x}, b - {x});
    }
  }

  /** `is_target_chat`: no exclusion phrase, a transcript longer than
      `MinTextLength`, and either more than three messages or at least two
      keywords. Length and substrings are judged on the lower-cased text. */
  function IsTargetChat(fullText: string, msgs: seq<Message>): (r: bool)
    ensures HasExclusion(Lower(fullText)) ==> !r
    ensures |fullText| <= MinTextLength ==> !r
    ensures !HasExclusion(Lower(fullText)) && |fullText| > MinTextLength && |msgs| > ManyMessages ==> r
    ensures !HasExclusion(Lower(fullText)) && |fullText| > MinTextLength && KeywordHits(Lower(fullText)) >= MinKeywordMatches ==> r
    ensures r && |msgs| <= ManyMessages ==> KeywordHits(Lower(fullText)) >= MinKeywordMatches
  {
    var lowered := Lower(fullText);
    if HasExclusion(lowered) then false
    else if |msgs| > ManyMessages && |lowered| > MinTextLength then true
    else KeywordHits(lowered) >= MinKeywordMatches && |lowered| > MinTextLength
  }

  /** The three labels and their text in the output. */
  datatype Label = Target | NonTarget | Ambiguous

  function LabelText(l: Label): string {
    match l
    case Target => "целевой"
    case NonTarget => "нецелевой"
    case Ambiguous => "спорный"
  }

  /** The messages counted as the counterpart's: not by the account and with
      text. A message without an author counts. */
  function ClientSelector(seller: int): Message -> bool {
    (m: Message) => m.authorId != Some(seller) && HasText(m)
  }

  /** How many messages the counterpart wrote. */
  function ClientCount(seller: int, msgs: seq<Message>): (r: nat)
    ensures r <= |msgs|
    ensures r == 0 <==> forall i :: 0 <= i < |msgs| ==> msgs[i].authorId == Some(seller) || !HasText(msgs[i])
  {
    NoClientMessages(seller, msgs);
    |Filter(ClientSelector(seller), msgs)|
  }

  lemma NoClientMessages(seller: int, msgs: seq<Message>)
    ensures Filter(ClientSelector(seller), msgs) == [] <==>
      forall i :: 0 <= i < |msgs| ==> msgs[i].authorId == Some(seller) || !HasText(msgs[i])
  {
    if forall i :: 0 <= i < |msgs| ==> msgs[i].authorId == Some(seller) || !HasText(msgs[i]) {
      FilterNone(ClientSelector(seller), msgs);
    } else {
      var i :| 0 <= i < |msgs| && !(msgs[i].authorId == Some(seller) || !HasText(msgs[i]));
      FilterIn(ClientSelector(seller), msgs, msgs[i]);
    }
  }

  /** The label of a chat: a target when `IsTargetChat` holds, otherwise a
      non-target when an exclusion phrase occurs, otherwise ambiguous; then
      ambiguous anyway when the counterpart wrote fewer than two messages. */
  function Decide(fullText: string, msgs: seq<Message>, seller: int): (r: Label)
    ensures r == Target <==> ClientCount(seller, msgs) >= MinClientMessages && IsTargetChat(fullText, msgs)
    ensures r == NonTarget <==> ClientCount(seller, msgs) >= MinClientMessages && HasExclusion(Lower(fullText))
    ensures ClientCount(seller, msgs) < MinClientMessages ==> r == Ambiguous
  {
    var verdict :=
      if IsTargetChat(fullText, msgs) then Target
      else if HasExclusion(Lower(fullText)) then NonTarget
      else Ambiguous;
    if ClientCount(seller, msgs) < MinClientMessages then Ambiguous else verdict
  }

  /** One chat as handed to the classifier: the key it was stored under, the
      chat metadata, and its messages. */
  datatype ChatEntry = ChatEntry(dialogId: string, dialog: RawChat, messages: seq<Message>)

  /** One classified chat. */
  datatype Analyzed = Analyzed(dialogId: string, dialog: RawChat, textSample: string, verdict: Label)

  /** Some message was written by the system account (author id 0). */
  function HasSystemMessage(msgs: seq<Message>): (r: bool)
    ensures r <==> exists m :: m in msgs && m.authorId == Some(0)
  {
    exists i | 0 <= i < |msgs| :: msgs[i].authorId == Some(0)
  }

  /** The chats the classifier keeps: those without a system message. */
  predicate IsHumanChat(c: ChatEntry) {
    !HasSystemMessage(c.messages)
  }

  /** `dialog_id or dialog.id`: an empty key falls back to the chat's own id. */
  function DialogId(c: ChatEntry): (r: string)
    ensures c.dialogId != "" ==> r == c.dialogId
    ensures c.dialogId == "" ==> r == c.dialog.id
  {
    if c.dialogId != "" then c.dialogId else c.dialog.id
  }

  /** The rebuilt transcript of a chat: its messages sorted by `created`,
      labelled through its roster. */
  function FullText(c: ChatEntry, fmt: int -> string): string {
    Render(SortByCreated(c.messages), GetSellerId(c.dialog), Roster(c.dialog.users), fmt)
  }

  /** The classification of one kept chat. The counts the rule needs do not
      depend on the order of the messages, so they are stated on the chat's
      messages as received. */
  function Analyze(c: ChatEntry, fmt: int -> string): (r: Analyzed)
    ensures r.dialogId == DialogId(c) && r.dialog == c.dialog
    ensures r.textSample == Strip(FullText(c, fmt))
    ensures |c.messages| == |SortByCreated(c.messages)|
    ensures r.verdict == Target <==>
      ClientCount(GetSellerId(c.dialog), c.messages) >= MinClientMessages && IsTargetChat(FullText(c, fmt), c.messages)
    ensures r.verdict == NonTarget <==>
      ClientCount(GetSellerId(c.dialog), c.messages) >= MinClientMessages && HasExclusion(Lower(FullText(c, fmt)))
  {
    var sorted := SortByCreated(c.messages);
    var seller := GetSellerId(c.dialog);
    var fullText := Render(sorted, seller, Roster(c.dialog.users), fmt);
    FilterCountPermutation(ClientSelector(seller), sorted, c.messages);
    assert |multiset(sorted)| == |multiset(c.messages)|;
    Analyzed(DialogId(c), c.dialog, Strip(fullText), Decide(fullText, sorted, seller))
  }

  /** Sorting neither adds nor removes text: the sorted messages have none
      exactly when the received ones have none. */
  lemma SortKeepsNoText(msgs: seq<Message>)
    ensures NoText(SortByCreated(msgs)) <==> NoText(msgs)
  {
    var sorted := SortByCreated(msgs);
    if NoText(msgs) {
      forall i | 0 <= i < |sorted| ensures !HasText(sorted[i]) {
        assert sorted[i] in multiset(msgs);
      }
    }
    if NoText(sorted) {
      forall i | 0 <= i < |msgs| ensures !HasText(msgs[i]) {
        assert msgs[i] in multiset(sorted);
      }
    }
  }

  /** A chat in which nobody wrote any text gets an empty sample and is
      ambiguous. */
  lemma TextlessChatIsAmbiguous(c: ChatEntry, fmt: int -> string)
    requires NoText(c.messages)
    ensures Analyze(c, fmt).textSample == []
    ensures Analyze(c, fmt).verdict == Ambiguous
  {
    var seller := GetSellerId(c.dialog);
    SortKeepsNoText(c.messages);
    RenderEmpty(SortByCreated(c.messages), seller, Roster(c.dialog.users), fmt);
    assert FullText(c, fmt) == [];
    assert Strip([]) == [];
    FilterNone(ClientSelector(seller), c.messages);
    assert ClientCount(seller, c.messages) == 0;
  }

  /** A chat is classified exactly when it is one of the input chats and none
      of its messages comes from the system account. */
  lemma ClassifiedChats(chats: seq<ChatEntry>, c: ChatEntry)
    ensures c in Filter(IsHumanChat, chats) <==> c in chats && forall m :: m in c.messages ==> m.authorId != Some(0)
  {
    FilterIn(IsHumanChat, chats, c);
  }

  /** `classify_target_chats`: skips the chats with a system message and
      classifies the rest, in input order. */
  method ClassifyTargetChats(chats: seq<ChatEntry>, fmt: int -> string) returns (results: seq<Analyzed>)
    ensures |results| == |Filter(IsHumanChat, chats)| <= |chats|
    ensures forall i :: 0 <= i < |results| ==> results[i] == Analyze(Filter(IsHumanChat, chats)[i], fmt)
  {
    results := [];
    for n := 0 to |chats|
      invariant |results| == |Filter(IsHumanChat, chats[..n])|
      invariant forall i :: 0 <= i < |results| ==> results[i] == Analyze(Filter(IsHumanChat, chats[..n])[i], fmt)
    {
      var c := chats[n];
      FilterSnoc(IsHumanChat, chats[..n], c);
      assert chats[..n + 1] == chats[..n] + [c];
      if HasSystemMessage(c.messages) {
        continue;
      }
      var dialogId := DialogId(c);
      var seller := GetSellerId(c.dialog);
      var names := BuildRoster(c.dialog.users);
      var sorted := SortByCreated(c.messages);
      var fullText := BuildTranscript(sorted, seller, names, fmt);
      var verdict := Decide(fullText, sorted, seller);
      results := results + [Analyzed(dialogId, c.dialog, Strip(fullText), verdict)];
    }
    assert chats[..|chats|] == chats;
  }
}
