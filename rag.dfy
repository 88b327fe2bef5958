/**
 * The backend's `RAG_Solution`: short greetings get a fixed introduction,
 * every other question goes through retrieval and generation, and the answer
 * is the decoded text after its last "Answer:" marker; an exception becomes
 * an error message.
 */
module Rag {
  import opened Wrappers
  import opened Text

  /** The words a greeting may consist of or open with. */
  const Greetings: seq<string> := ["hi", "hello", "bonjour", "salut", "hey", "bonsoir", "hii", "helo"]

  /** The introduction sent back for a greeting. */
  const GreetingReply: string :=
    "Hello! I'm AssurBot, your AI insurance advisor. I can help you find the perfect coverage bundle based on your profile — age, family size, budget, lifestyle, and risk preferences. Just tell me about yourself and I'll match you with the best plan!"

  /** What an exception's text is prefixed with. */
  const ErrorPrefix: string := "Erreur dans le pipeline RAG: "

  /** The marker the prompt ends with; the model's answer follows it. */
  const AnswerMarker: string := "Answer:"

  /** The query lowercased, with white space stripped from both ends. */
  function CleanQuery(query: string): string {
    PyStrip(Lower(query))
  }

  /** The cleaned query is the word `g`, or starts with `g` followed by a space. */
  predicate OpensWith(clean: string, g: string) {
    clean == g || g + " " <= clean
  }

  /** Some word of the list opens the cleaned query, scanning the list from the front. */
  predicate AnyOpens(clean: string, words: seq<string>)
    decreases |words|
  {
    |words| > 0 && (OpensWith(clean, words[0]) || AnyOpens(clean, words[1..]))
  }

  lemma {:induction false} AnyOpensIff(clean: string, words: seq<string>)
    ensures AnyOpens(clean, words) <==> exists g :: g in words && OpensWith(clean, g)
    decreases |words|
  {
    if |words| > 0 {
      AnyOpensIff(clean, words[1..]);
      assert forall g :: g in words <==> g == words[0] || g in words[1..];
    }
  }

  /** The greeting test: a greeting word alone or followed by a space, under 15 characters in all. */
  function IsGreeting(query: string): (greeting: bool)
    ensures greeting <==>
      (exists g :: g in Greetings && OpensWith(CleanQuery(query), g)) && |CleanQuery(query)| < 15
  {
    AnyOpensIff(CleanQuery(query), Greetings);
    AnyOpens(CleanQuery(query), Greetings) && |CleanQuery(query)| < 15
  }

  /** The text up to the first space, or all of it when there is none. */
  function FirstWord(s: string): (w: string)
    ensures w <= s && ' ' !in w
    ensures w == s || w + " " <= s
    decreases |s|
  {
    if |s| == 0 || s[0] == ' ' then []
    else
      assert s == [s[0]] + s[1..];
      [s[0]] + FirstWord(s[1..])
  }

  /** A word without spaces is the first word of itself followed by a space and anything. */
  lemma {:induction false} FirstWordOfPrefix(g: string, s: string)
    requires ' ' !in g
    requires s == g || g + " " <= s
    ensures FirstWord(s) == g
    decreases |g|
  {
    if |g| > 0 {
      assert s[0] == g[0];
      assert g[1..] + " " == (g + " ")[1..];
      FirstWordOfPrefix(g[1..], s[1..]);
    }
  }

  /**
   * The greeting test restated: the cleaned query is shorter than 15
   * characters and its first word is one of the greeting words.
   */
  lemma GreetingIsFirstWord(query: string)
    ensures IsGreeting(query) <==> |CleanQuery(query)| < 15 && FirstWord(CleanQuery(query)) in Greetings
  {
    assert forall g :: g in Greetings ==> ' ' !in g;
    OpensIffFirstWord(CleanQuery(query), Greetings);
  }

  /** Among words without spaces, the text opens with one of them exactly when its first word is one. */
  lemma OpensIffFirstWord(c: string, words: seq<string>)
    requires forall g :: g in words ==> ' ' !in g
    ensures (exists g :: g in words && OpensWith(c, g)) <==> FirstWord(c) in words
  {
    if exists g :: g in words && OpensWith(c, g) {
      var g :| g in words && OpensWith(c, g);
      FirstWordOfPrefix(g, c);
    }
  }

  /**
   * Where the last piece of `s` split at `sep` starts: right after the last
   * separator that a scan from the left finds, or at 0 when there is none.
   * No separator occurs from there on.
   */
  function PieceStart(s: string, sep: string): (k: nat)
    requires |sep| > 0
    ensures k <= |s|
    ensures k == 0 || OccursAt(s, sep, k - |sep|)
    ensures forall j :: !OccursAt(s[k..], sep, j)
    decreases |s|
  {
    var first := FirstIndexOf(s, sep);
    if first.None? then
      assert s[0..] == s;
      0
    else
      var i := first.value;
      var k' := PieceStart(s[i + |sep|..], sep);
      PieceAfterSeparator(s, sep, i, k', s[i + |sep|..][k'..]);
      i + |sep| + k'
  }

  /**
   * A separator at `i`, then a piece of the rest that starts at `k`: the
   * piece is the suffix of the whole text that starts at `i + |sep| + k`,
   * and a separator stands right before it.
   */
  lemma PieceAfterSeparator(s: string, sep: string, i: nat, k: nat, piece: string)
    requires OccursAt(s, sep, i)
    requires k <= |s| - i - |sep|
    requires k == 0 || OccursAt(s[i + |sep|..], sep, k - |sep|)
    requires piece == s[i + |sep|..][k..]
    ensures i + |sep| + k <= |s| && piece == s[i + |sep| + k..]
    ensures OccursAt(s, sep, i + |sep| + k - |sep|)
  {
    SeparatorBeforeStep(s, sep, i, k);
    TailOfTail(s, i + |sep|, k);
  }

  /** The last piece of `s` split at `sep`. */
  function AfterLast(s: string, sep: string): string
    requires |sep| > 0
  {
    s[PieceStart(s, sep)..]
  }

  /**
   * The last piece is a suffix of `s` without the separator in it, and
   * unless it is all of `s` a separator stands right before it.
   */
  lemma AfterLastSpec(s: string, sep: string)
    requires |sep| > 0
    ensures var r := AfterLast(s, sep);
      && |r| <= |s| && r == s[|s| - |r|..]
      && (forall j :: !OccursAt(r, sep, j))
      && (r == s || OccursAt(s, sep, |s| - |r| - |sep|))
  {
  }

  /** A separator at `i` followed by a piece that starts after a separator, or at once. */
  lemma SeparatorBeforeStep(s: string, sep: string, i: nat, k: nat)
    requires OccursAt(s, sep, i)
    requires k == 0 || OccursAt(s[i + |sep|..], sep, k - |sep|)
    ensures OccursAt(s, sep, i + |sep| + k - |sep|)
  {
    if k > 0 {
      var t := s[i + |sep|..];
      assert s[i + |sep|..i + |sep| + |t|] == t;
      OccursInInfix(s, i + |sep|, t, sep, k - |sep|);
    }
  }

  /** Dropping `a` characters and then `b` more drops `a + b`. */
  lemma TailOfTail(s: string, a: nat, b: nat)
    requires a + b <= |s|
    ensures s[a..][b..] == s[a + b..]
  {
  }

  /** With no separator in it, the text is its own last piece. */
  lemma AfterLastWithoutSeparator(s: string, sep: string)
    requires |sep| > 0 && forall j :: !OccursAt(s, sep, j)
    ensures AfterLast(s, sep) == s
  {
    assert FirstIndexOf(s, sep).None?;
  }

  /** The answer: the last piece of the decoded text split at "Answer:", stripped. */
  function ExtractAnswer(decoded: string): (answer: string)
    ensures |answer| <= |decoded|
    ensures forall j :: !OccursAt(answer, AnswerMarker, j)
  {
    AfterLastSpec(decoded, AnswerMarker);
    TrimKeepsAbsence(AfterLast(decoded, AnswerMarker), IsPyWhitespace, AnswerMarker);
    TrimSpec(AfterLast(decoded, AnswerMarker), IsPyWhitespace);
    PyStrip(AfterLast(decoded, AnswerMarker))
  }

  /** Two occurrences of "Answer:" cannot overlap: 'A' is not among its later letters. */
  lemma MarkersApart(s: string, p: int, q: int)
    requires OccursAt(s, AnswerMarker, p) && OccursAt(s, AnswerMarker, q) && p < q
    ensures q - p >= |AnswerMarker|
  {
    var m := |AnswerMarker|;
    assert s[q] == 'A' by {
      assert s[q..q + m][0] == s[q];
    }
    forall k | p < k < p + m ensures s[k] != 'A' {
      assert s[p..p + m][k - p] == s[k];
    }
  }

  /** The answer comes after every "Answer:" in the decoded text, so after the last one. */
  lemma AnswerFollowsEveryMarker(decoded: string)
    ensures forall j :: OccursAt(decoded, AnswerMarker, j) ==> j + |AnswerMarker| <= PieceStart(decoded, AnswerMarker)
  {
    var k := PieceStart(decoded, AnswerMarker);
    var m := |AnswerMarker|;
    forall j | OccursAt(decoded, AnswerMarker, j) ensures j + m <= k {
      if j >= k {
        OccursInTail(decoded, k, AnswerMarker, j);
      } else if j > k - m {
        MarkersApart(decoded, k - m, j);
      }
    }
  }

  /**
   * The prompt ends with "Answer:"; when the model's continuation does not
   * contain the marker, the reply is the continuation, stripped.
   */
  lemma AnswerIsContinuation(prompt: string, continuation: string)
    requires |prompt| >= |AnswerMarker| && prompt[|prompt| - |AnswerMarker|..] == AnswerMarker
    requires forall j :: !OccursAt(continuation, AnswerMarker, j)
    ensures AfterLast(prompt + continuation, AnswerMarker) == continuation
    ensures ExtractAnswer(prompt + continuation) == PyStrip(continuation)
  {
    var s := prompt + continuation;
    var r := AfterLast(s, AnswerMarker);
    var m := |AnswerMarker|;
    var last := |prompt| - m;
    assert |s| == |prompt| + |continuation|;
    assert OccursAt(s, AnswerMarker, last) by {
      assert s[last..last + m] == prompt[last..];
    }
    AfterLastSpec(s, AnswerMarker);
    if |r| > |continuation| {
      if last >= |s| - |r| {
        OccursInTail(s, |s| - |r|, AnswerMarker, last);
      } else {
        MarkersApart(s, |s| - |r| - m, last);
      }
    } else if |r| < |continuation| {
      var p := |s| - |r| - m;
      if p >= |prompt| {
        assert s[|prompt|..] == continuation;
        OccursInTail(s, |prompt|, AnswerMarker, p);
      } else {
        MarkersApart(s, last, p);
      }
    }
    assert s[|prompt|..] == continuation;
  }

  /**
   * How retrieval and generation ended for a question: the decoded output
   * of the model (prompt and continuation), or the text of the exception
   * raised on the way.
   */
  datatype PipelineRun = Decoded(text: string) | Raised(error: string)

  /** `RAG_Solution(query)`, with retrieval and generation given as `pipeline`. */
  function RagSolution(query: string, pipeline: string -> PipelineRun): (reply: string)
    ensures IsGreeting(query) ==> reply == GreetingReply
    ensures !IsGreeting(query) && pipeline(query).Raised? ==> reply == ErrorPrefix + pipeline(query).error
    ensures !IsGreeting(query) && pipeline(query).Decoded? ==> reply == ExtractAnswer(pipeline(query).text)
  {
    if IsGreeting(query) then GreetingReply
    else
      match pipeline(query)
      case Decoded(text) => ExtractAnswer(text)
      case Raised(error) => ErrorPrefix + error
  }

  /** A greeting is answered without retrieval or generation: the pipeline makes no difference. */
  lemma GreetingSkipsPipeline(query: string, p: string -> PipelineRun, q: string -> PipelineRun)
    requires IsGreeting(query)
    ensures RagSolution(query, p) == RagSolution(query, q)
  {
  }
}
