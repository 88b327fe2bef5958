/**
 * The MedAssist chat page: a list of conversations kept in local storage,
 * the id of the one on screen, and the `isProcessing` flag that keeps a
 * second question from being sent while the first is with the backend.
 */
module Conversations {
  import opened Wrappers
  import opened Seqs
  import opened Text
  import opened Chat

  datatype Message = Message(role: Role, text: string, timestamp: int)

  datatype Conversation = Conversation(id: string, title: string, messages: seq<Message>, createdAt: int)

  /** The title of a conversation nothing has been asked in yet. */
  const DefaultTitle: string := "New Conversation"

  /** A fresh, empty conversation. */
  function NewConversation(id: string, now: int): Conversation {
    Conversation(id, DefaultTitle, [], now)
  }

  /** The identifiers in use. */
  function IdsOf(convs: seq<Conversation>): (ids: set<string>)
    ensures forall c :: c in convs ==> c.id in ids
    ensures forall id :: id in ids ==> exists c :: c in convs && c.id == id
  {
    set c | c in convs :: c.id
  }

  /** The lookup by id, as the index of the first conversation with that id. */
  function FindIndex(convs: seq<Conversation>, id: string): (r: Option<nat>)
    ensures r.Some? ==> r.value < |convs| && convs[r.value].id == id
    ensures r.Some? ==> forall j :: 0 <= j < r.value ==> convs[j].id != id
    ensures r.None? <==> id !in IdsOf(convs)
    decreases |convs|
  {
    if |convs| == 0 then None
    else if convs[0].id == id then Some(0)
    else
      match FindIndex(convs[1..], id)
      case None =>
        assert forall c :: c in convs ==> c == convs[0] || c in convs[1..];
        None
      case Some(k) => Some(k + 1)
  }

  /** The conversations except those with the given id, in their order. */
  function Without(convs: seq<Conversation>, id: string): (r: seq<Conversation>)
    ensures forall c :: c in r <==> c in convs && c.id != id
    ensures IdsOf(r) == IdsOf(convs) - {id}
  {
    var r := Filter(convs, (c: Conversation) => c.id != id);
    assert forall x :: x in IdsOf(convs) - {id} ==> x in IdsOf(r) by {
      forall x | x in IdsOf(convs) - {id} ensures x in IdsOf(r) {
        var c :| c in convs && c.id == x;
        assert c in r;
      }
    }
    r
  }

  /** Deleting keeps the other conversations in their order. */
  lemma WithoutKeepsOrder(convs: seq<Conversation>, id: string)
    ensures SubsequenceOf(Without(convs, id), convs)
  {
    FilterIsSubsequence(convs, (c: Conversation) => c.id != id);
  }

  /**
   * The title taken from the first question: up to 40 characters are kept
   * as they are, a longer question is cut to 40 and marked with "...".
   */
  function TitleFrom(message: string): (t: string)
    ensures |t| <= 43
    ensures |message| <= 40 ==> t == message
    ensures |message| > 40 ==> |t| == 43 && t[..40] == message[..40] && t[40..] == "..."
  {
    if |message| > 40 then message[..40] + "..." else message
  }

  /** Shown when the request to the backend throws or the answer cannot be read. */
  const ConnectionTrouble: string :=
    "Sorry, I'm having trouble connecting to the server. Please make sure the backend is running."

  /** Shown when the backend's JSON has neither a `response` nor an `answer` text. */
  const NotProcessed: string := "I couldn't process that request."

  /**
   * How `fetch` to the backend ended: it threw, the status was not ok, the
   * body was not JSON, or the body was JSON with the two fields read from it
   * (`None` for a field that is absent or `null`).
   */
  datatype BackendOutcome =
    | NetworkError
    | NotOk(status: int)
    | MalformedJson
    | Received(response: Option<string>, answer: Option<string>)

  /** JavaScript truthiness of a text field: present and not the empty string. */
  predicate Truthy(field: Option<string>) {
    field.Some? && field.value != []
  }

  /** `sendMessageToBackend`: the first non-empty of the `response` and `answer` fields, a fallback text, or the apology on failure. */
  function ReplyFor(outcome: BackendOutcome): (reply: string)
    ensures reply != []
    ensures !outcome.Received? ==> reply == ConnectionTrouble
    ensures outcome.Received? && Truthy(outcome.response) ==> reply == outcome.response.value
    ensures outcome.Received? && !Truthy(outcome.response) && Truthy(outcome.answer) ==> reply == outcome.answer.value
    ensures outcome.Received? && !Truthy(outcome.response) && !Truthy(outcome.answer) ==> reply == NotProcessed
  {
    match outcome
    case Received(response, answer) =>
      if Truthy(response) then response.value
      else if Truthy(answer) then answer.value
      else NotProcessed
    case _ => ConnectionTrouble
  }

  /** Replacing a conversation by one with the same id keeps the set of ids. */
  lemma IdsAfterUpdate(convs: seq<Conversation>, i: nat, c: Conversation)
    requires i < |convs| && c.id == convs[i].id
    ensures IdsOf(convs[i := c]) == IdsOf(convs)
  {
    var u := convs[i := c];
    forall x | x in IdsOf(convs) ensures x in IdsOf(u) {
      var k :| 0 <= k < |convs| && convs[k].id == x;
      assert u[k].id == x;
    }
    forall x | x in IdsOf(u) ensures x in IdsOf(convs) {
      var k :| 0 <= k < |u| && u[k].id == x;
      assert convs[k].id == x;
    }
  }

  /** Replacing a conversation by one with the same id leaves where `find` stops unchanged. */
  lemma FindIndexAfterUpdate(convs: seq<Conversation>, i: nat, c: Conversation)
    requires i < |convs| && FindIndex(convs, c.id) == Some(i)
    ensures FindIndex(convs[i := c], c.id) == Some(i)
  {
    assert c.id in IdsOf(convs[i := c]) by {
      assert convs[i := c][i] == c;
    }
  }

  /** The message to send, trimmed: a suggestion chip's query wins over the text area unless it is empty. */
  function Outgoing(chip: Option<string>, draft: string): string {
    JsTrim(if chip.Some? && chip.value != [] then chip.value else draft)
  }

  /** `conv` with the question appended, titled after it when it is the first message. */
  function WithQuestion(conv: Conversation, message: string, ts: int): (c: Conversation)
    ensures c.id == conv.id && c.createdAt == conv.createdAt
    ensures c.messages == conv.messages + [Message(User, message, ts)]
    ensures c.title == if conv.messages == [] then TitleFrom(message) else conv.title
  {
    var msgs := conv.messages + [Message(User, message, ts)];
    conv.(messages := msgs, title := if |msgs| == 1 then TitleFrom(message) else conv.title)
  }

  class ConversationStore {
    var conversations: seq<Conversation>
    var activeId: Option<string>
    var isProcessing: bool
    /** The text area's value. */
    var draft: string
    /** The id of the conversation a question in flight was asked in (`conv` across the `await`). */
    var pending: Option<string>

    /** `isProcessing` is set exactly while a question is in flight. */
    predicate Tracking()
      reads this`isProcessing, this`pending
    {
      isProcessing <==> pending.Some?
    }

    /** The id on screen names a stored conversation. */
    predicate ActiveExists()
      reads this`conversations, this`activeId
    {
      activeId.Some? && activeId.value in IdsOf(conversations)
    }

    predicate Valid()
      reads this
    {
      Tracking() && ActiveExists()
    }

    /** `getActiveConversation()`. */
    function Active(): (r: Option<nat>)
      reads this`conversations, this`activeId
      ensures r.Some? ==> r.value < |conversations| && Some(conversations[r.value].id) == activeId
      ensures r.None? <==> !ActiveExists()
    {
      if activeId.None? then None else FindIndex(conversations, activeId.value)
    }

    /**
     * The page loads: the stored conversations, or one new conversation when
     * none are stored; the first one is put on screen.
     */
    constructor Init(stored: seq<Conversation>, freshId: string, now: int)
      ensures |stored| == 0 ==> conversations == [NewConversation(freshId, now)] && activeId == Some(freshId)
      ensures |stored| > 0 ==> conversations == stored && activeId == Some(stored[0].id)
      ensures !isProcessing && pending == None && draft == ""
      ensures Valid()
    {
      isProcessing := false;
      pending := None;
      draft := "";
      if |stored| == 0 {
        conversations := [NewConversation(freshId, now)];
        activeId := Some(freshId);
        assert NewConversation(freshId, now).id in IdsOf([NewConversation(freshId, now)]);
      } else {
        conversations := stored;
        activeId := Some(stored[0].id);
        assert stored[0] in stored;
      }
    }

    /** The "new chat" button: a new empty conversation goes to the front and on screen. */
    method CreateConversation(freshId: string, now: int)
      requires freshId !in IdsOf(conversations) && pending != Some(freshId)
      modifies this`conversations, this`activeId
      ensures conversations == [NewConversation(freshId, now)] + old(conversations)
      ensures activeId == Some(freshId)
      ensures ActiveExists()
    {
      conversations := [NewConversation(freshId, now)] + conversations;
      activeId := Some(freshId);
      assert conversations[0].id == freshId;
    }

    /** A click on a history entry; the id is recorded even if it names no conversation. */
    method SetActiveConversation(id: string)
      modifies this`activeId
      ensures activeId == Some(id)
      ensures ActiveExists() <==> id in IdsOf(conversations)
    {
      activeId := Some(id);
    }

    /**
     * The delete button of a history entry. When the conversation on screen
     * is deleted, the first remaining one takes its place, or a new one is
     * created when none remain.
     */
    method DeleteConversation(id: string, freshId: string, now: int)
      requires Valid() && freshId !in IdsOf(conversations) && pending != Some(freshId)
      modifies this`conversations, this`activeId
      ensures Valid()
      ensures id !in IdsOf(conversations) || (old(activeId) == Some(id) && |Without(old(conversations), id)| == 0 && id == freshId)
      ensures old(activeId) != Some(id) ==>
        conversations == Without(old(conversations), id) && activeId == old(activeId)
      ensures old(activeId) == Some(id) && |Without(old(conversations), id)| > 0 ==>
        conversations == Without(old(conversations), id) && activeId == Some(conversations[0].id)
      ensures old(activeId) == Some(id) && |Without(old(conversations), id)| == 0 ==>
        conversations == [NewConversation(freshId, now)] && activeId == Some(freshId)
    {
      conversations := Without(conversations, id);
      if activeId == Some(id) {
        if |conversations| > 0 {
          SetActiveConversation(conversations[0].id);
          assert conversations[0] in conversations;
        } else {
          CreateConversation(freshId, now);
        }
      }
    }

    /** The text area's `input` event. */
    method TypeDraft(text: string)
      modifies this`draft
      ensures draft == text
    {
      draft := text;
    }

    /**
     * `handleSend` up to its `await`. A blank message, or a question already
     * in flight, changes nothing; otherwise the text area is cleared, the
     * question is appended to the conversation on screen (which takes its
     * title from a first question), and that conversation becomes the one
     * the reply is for.
     */
    method BeginSend(chip: Option<string>, ts: int) returns (sent: Option<string>)
      requires Valid()
      modifies this`conversations, this`isProcessing, this`draft, this`pending
      ensures Valid() && activeId == old(activeId)
      ensures sent.None? <==> Outgoing(chip, old(draft)) == [] || old(isProcessing)
      ensures sent.None? ==>
        conversations == old(conversations) && isProcessing == old(isProcessing)
        && draft == old(draft) && pending == old(pending)
      ensures sent.Some? ==>
        var i := old(Active()).value;
        && sent.value == Outgoing(chip, old(draft))
        && isProcessing && draft == "" && pending == activeId
        && conversations == old(conversations)[i := WithQuestion(old(conversations)[i], sent.value, ts)]
    {
      var message := Outgoing(chip, draft);
      if message == [] || isProcessing {
        return None;
      }
      Ask(message, ts);
      sent := Some(message);
    }

    /** A question goes out: it is appended to the conversation on screen, which the reply will be for. */
    method Ask(message: string, ts: int)
      requires Valid() && !isProcessing
      modifies this`conversations, this`isProcessing, this`draft, this`pending
      ensures Valid() && activeId == old(activeId)
      ensures var i := old(Active()).value;
        && isProcessing && draft == "" && pending == activeId
        && conversations == old(conversations)[i := WithQuestion(old(conversations)[i], message, ts)]
    {
      var i := Active().value;
      var updated := WithQuestion(conversations[i], message, ts);
      IdsAfterUpdate(conversations, i, updated);
      conversations := conversations[i := updated];
      isProcessing := true;
      draft := "";
      pending := activeId;
    }

    /**
     * `handleSend` after its `await`: the reply goes to the conversation the
     * question was asked in, whichever is on screen now; if that
     * conversation was deleted meanwhile the reply is not stored.
     */
    method FinishSend(outcome: BackendOutcome, ts: int)
      requires Valid() && isProcessing
      modifies this`conversations, this`isProcessing, this`pending
      ensures Valid() && !isProcessing
      ensures var reply := Message(Ai, ReplyFor(outcome), ts);
        match FindIndex(old(conversations), old(pending).value)
        case None => conversations == old(conversations)
        case Some(i) =>
          conversations == old(conversations)[i := old(conversations)[i].(messages := old(conversations)[i].messages + [reply])]
    {
      var reply := Message(Ai, ReplyFor(outcome), ts);
      match FindIndex(conversations, pending.value) {
        case None =>
        case Some(i) =>
          var c := conversations[i];
          IdsAfterUpdate(conversations, i, c.(messages := c.messages + [reply]));
          conversations := conversations[i := c.(messages := c.messages + [reply])];
      }
      isProcessing := false;
      pending := None;
    }

    /** The "clear chat" button: a conversation with messages is emptied and its title reset. */
    method ClearChat()
      modifies this`conversations
      ensures ActiveExists() == old(ActiveExists())
      ensures old(Active()).None? || old(conversations)[old(Active()).value].messages == [] ==>
        conversations == old(conversations)
      ensures old(Active()).Some? && old(conversations)[old(Active()).value].messages != [] ==>
        var i := old(Active()).value;
        conversations == old(conversations)[i := old(conversations)[i].(messages := [], title := DefaultTitle)]
    {
      match Active()
      case None =>
      case Some(i) =>
        if conversations[i].messages != [] {
          var c := conversations[i];
          conversations := conversations[i := c.(messages := [], title := DefaultTitle)];
          assert conversations[i] in conversations;
        }
    }

    /**
     * A whole `handleSend` during which nothing else happens: the question
     * and then the reply to it are appended to the conversation on screen.
     */
    method HandleSend(chip: Option<string>, outcome: BackendOutcome, ts: int, replyTs: int)
      returns (sent: Option<string>)
      requires Valid()
      modifies this`conversations, this`isProcessing, this`draft, this`pending
      ensures Valid() && activeId == old(activeId) && isProcessing == old(isProcessing)
      ensures sent.None? <==> Outgoing(chip, old(draft)) == [] || old(isProcessing)
      ensures sent.None? ==> conversations == old(conversations) && draft == old(draft)
      ensures sent.Some? ==>
        var i := old(Active()).value;
        var asked := WithQuestion(old(conversations)[i], sent.value, ts);
        && sent.value == Outgoing(chip, old(draft))
        && draft == ""
        && conversations == old(conversations)[i := asked.(messages := asked.messages + [Message(Ai, ReplyFor(outcome), replyTs)])]
    {
      sent := BeginSend(chip, ts);
      if sent.Some? {
        var i := old(Active()).value;
        FindIndexAfterUpdate(old(conversations), i, WithQuestion(old(conversations)[i], sent.value, ts));
        FinishSend(outcome, replyTs);
      }
    }
  }
}
