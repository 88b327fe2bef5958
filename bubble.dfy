/**
 * The floating AssurBot chat bubble of the Bundle Explorer page: its open
 * flag, its message list, the text being typed, and the `loading` flag that
 * is set while a question is with the backend.
 */
module ChatBubble {
  import opened Wrappers
  import opened Text
  import opened Chat

  datatype BubbleMessage = BubbleMessage(role: Role, text: string)

  /** The greeting the bubble starts with. */
  const Welcome: string :=
    "Hi! I'm AssurBot \U{1F6E1}\U{FE0F}\nTell me about yourself (age, family, budget, needs) and I'll match you with the perfect insurance bundle!"

  /** Shown when the request to the backend fails. */
  const Unreachable: string := "Sorry, I couldn't reach the server. Make sure the backend is running."

  /**
   * How the `POST /rag` request ended: the backend answered with its
   * `response` field, or the request threw.
   */
  datatype RagOutcome = Responded(response: string) | RequestFailed

  /** The text of the AI message appended once the request is over. */
  function ReplyText(outcome: RagOutcome): (text: string)
    ensures outcome.Responded? ==> text == outcome.response
    ensures outcome.RequestFailed? ==> text == Unreachable
  {
    match outcome
    case Responded(response) => response
    case RequestFailed => Unreachable
  }

  /** The send button is enabled: the trimmed input is not empty and no request is under way. */
  function CanSend(input: string, loading: bool): (ok: bool)
    ensures ok <==> !loading && exists k :: 0 <= k < |input| && !IsJsWhitespace(input[k])
  {
    TrimSpec(input, IsJsWhitespace);
    !loading && JsTrim(input) != []
  }

  /**
   * A conversation that starts with the greeting and in which every question
   * was sent trimmed and non-empty.
   */
  predicate WellFormed(messages: seq<BubbleMessage>) {
    |messages| > 0 && messages[0] == BubbleMessage(Ai, Welcome)
    && forall i :: 0 <= i < |messages| && messages[i].role == User ==> Sendable(messages[i].text)
  }

  /** A question as `send` posts it: not empty, and with no white space at either end. */
  predicate Sendable(q: string) {
    q != [] && Unpadded(q, IsJsWhitespace)
  }

  /** Appending a reply, or a sendable question, keeps a conversation well formed. */
  lemma Posted(messages: seq<BubbleMessage>, m: BubbleMessage)
    requires WellFormed(messages)
    requires m.role == User ==> Sendable(m.text)
    ensures WellFormed(messages + [m])
  {
    var r := messages + [m];
    forall i | 0 <= i < |r| && r[i].role == User ensures Sendable(r[i].text) {
      if i < |messages| {
        assert r[i] == messages[i];
      }
    }
  }

  class Bubble {
    var open: bool
    var messages: seq<BubbleMessage>
    var input: string
    var loading: bool

    predicate Valid()
      reads this`messages
    {
      WellFormed(messages)
    }

    constructor ()
      ensures !open && messages == [BubbleMessage(Ai, Welcome)] && input == "" && !loading
      ensures Valid()
    {
      open := false;
      messages := [BubbleMessage(Ai, Welcome)];
      input := "";
      loading := false;
    }

    /** The round button opens a closed panel and closes an open one. */
    method ToggleOpen()
      modifies this`open
      ensures open == !old(open)
    {
      open := !open;
    }

    /** The text field's `onChange`. */
    method Type(text: string)
      modifies this`input
      ensures input == text
    {
      input := text;
    }

    /**
     * `send` up to its `await`: a blank question or a request already under
     * way does nothing; otherwise the trimmed question is posted to the
     * conversation and returned as the one to send.
     */
    method BeginSend() returns (question: Option<string>)
      requires Valid()
      modifies this`input, this`messages, this`loading
      ensures Valid()
      ensures !CanSend(old(input), old(loading)) ==>
        question == None && input == old(input) && messages == old(messages) && loading == old(loading)
      ensures CanSend(old(input), old(loading)) ==>
        question == Some(JsTrim(old(input))) && input == ""
        && messages == old(messages) + [BubbleMessage(User, JsTrim(old(input)))] && loading
    {
      var q := JsTrim(input);
      if q == [] || loading {
        return None;
      }
      TrimEnds(input, IsJsWhitespace);
      Post(q);
      question := Some(q);
    }

    /** A sendable question is posted: the field is cleared, the question appended and loading starts. */
    method Post(q: string)
      requires Valid() && Sendable(q)
      modifies this`input, this`messages, this`loading
      ensures Valid()
      ensures input == "" && messages == old(messages) + [BubbleMessage(User, q)] && loading
    {
      input := "";
      Posted(messages, BubbleMessage(User, q));
      messages := messages + [BubbleMessage(User, q)];
      loading := true;
    }

    /** `send` after its `await`: the reply or the apology is appended and loading ends. */
    method FinishSend(outcome: RagOutcome)
      requires Valid()
      modifies this`messages, this`loading
      ensures Valid()
      ensures messages == old(messages) + [BubbleMessage(Ai, ReplyText(outcome))] && !loading
    {
      Posted(messages, BubbleMessage(Ai, ReplyText(outcome)));
      messages := messages + [BubbleMessage(Ai, ReplyText(outcome))];
      loading := false;
    }

    /**
     * A whole `send` whose request ends with `outcome` and during which
     * nothing else happens: question and reply are appended together.
     */
    method Send(outcome: RagOutcome)
      requires Valid()
      modifies this`input, this`messages, this`loading
      ensures Valid()
      ensures !CanSend(old(input), old(loading)) ==>
        input == old(input) && messages == old(messages) && loading == old(loading)
      ensures CanSend(old(input), old(loading)) ==>
        input == "" && !loading
        && messages == old(messages) + [BubbleMessage(User, JsTrim(old(input))), BubbleMessage(Ai, ReplyText(outcome))]
    {
      var question := BeginSend();
      if question.Some? {
        FinishSend(outcome);
      }
    }
  }
}
