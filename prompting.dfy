/**
 * The response side of prompting.ts: the handler that turns the streamed chat deltas into
 * spoken utterances on a response dispatcher, what happens once the chat call returns or
 * throws, the follow-up answer of answerQuestion, and the pure string helpers (the system
 * prompt of finalSystem and the "yes" test of isQuestionAboutActivity).
 *
 * The response dispatcher (TTSDispatcher) is not defined in the modelled source; it is
 * modelled only by the fields this code uses: the utterances handed to it, whether it is
 * finalized, whether it has errored, and the child answers registered on it.
 */
module Prompting {
  import opened Options
  import opened Text
  import Conversation

  /** What is said when the model answers with a function call instead of text. */
  const ThinkingMessage: string := "Give me a moment to think."
  const Paragraph: string := "\n\n"

  /**
   * One streamed chunk, choice 0: whether its delta carries a function call, its content
   * (None when absent) and whether it carries a finish reason.
   */
  datatype Delta = Delta(functionCall: bool, content: Option<string>, finishReason: bool)

  /** The handler's state: the local accumulator and the dispatcher fields it changes. */
  datatype Stream = Stream(acm: string, utterances: seq<string>, finalized: bool)

  function Start(): Stream { Stream("", [], false) }

  /** JavaScript truthiness of the delta's content. */
  predicate HasContent(d: Delta) { d.content.Some? && d.content.value != "" }

  /** The onMessage handler of finalPrompt applied to one delta. */
  function OnDelta(s: Stream, d: Delta): Stream
  {
    if d.functionCall then
      if !s.finalized then Stream(s.acm, s.utterances + [ThinkingMessage], true) else s
    else if s.finalized then s
    else if d.finishReason then Stream(s.acm, s.utterances + [s.acm], true)
    else if !HasContent(d) then s
    else if Contains(d.content.value, Paragraph) then Stream("", s.utterances + [s.acm + d.content.value], false)
    else Stream(s.acm + d.content.value, s.utterances, false)
  }

  /** The handler applied to the deltas in arrival order. */
  function Fold(s: Stream, ds: seq<Delta>): Stream
    decreases |ds|
  {
    if ds == [] then s else Fold(OnDelta(s, ds[0]), ds[1..])
  }

  /** The text content of a delta as the handler would add it: nothing when falsy. */
  function ChunkText(d: Delta): string { if HasContent(d) then d.content.value else "" }

  function Received(ds: seq<Delta>): string
  {
    if ds == [] then "" else ChunkText(ds[0]) + Received(ds[1..])
  }

  function Concat(ss: seq<string>): string
  {
    if ss == [] then "" else Concat(ss[..|ss| - 1]) + ss[|ss| - 1]
  }

  /** Deltas that neither call a function nor finish the response. */
  predicate PlainContent(ds: seq<Delta>)
  {
    forall k :: 0 <= k < |ds| ==> !ds[k].functionCall && !ds[k].finishReason
  }

  /** Once the dispatcher is finalized, no later delta of any kind changes anything. */
  lemma {:induction false} FinalizedIsStable(s: Stream, ds: seq<Delta>)
    requires s.finalized
    ensures Fold(s, ds) == s
    decreases |ds|
  {
    if ds != [] {
      FinalizedIsStable(OnDelta(s, ds[0]), ds[1..]);
    }
  }

  /**
   * A function call ends the spoken response: the thinking message is said once, the
   * dispatcher is finalized, and nothing streamed afterwards is said.
   */
  lemma FunctionCallEndsResponse(s: Stream, call: Delta, ds: seq<Delta>)
    requires !s.finalized && call.functionCall
    ensures Fold(s, [call] + ds) == Stream(s.acm, s.utterances + [ThinkingMessage], true)
  {
    assert ([call] + ds)[0] == call && ([call] + ds)[1..] == ds;
    FinalizedIsStable(OnDelta(s, call), ds);
  }

  /** Chunks without a paragraph break. */
  predicate Unbroken(ds: seq<Delta>)
  {
    forall k :: 0 <= k < |ds| ==> !Contains(ChunkText(ds[k]), Paragraph)
  }

  /**
   * Content without a paragraph break is not said yet: it only gathers in the accumulator,
   * in arrival order, until a break or the finish.
   */
  lemma {:induction false} UnbrokenChunksAccumulate(s: Stream, ds: seq<Delta>)
    requires !s.finalized && PlainContent(ds) && Unbroken(ds)
    ensures Fold(s, ds) == Stream(s.acm + Received(ds), s.utterances, false)
    decreases |ds|
  {
    if ds == [] {
      assert s.acm + "" == s.acm;
    } else {
      var d := ds[0];
      assert !d.functionCall && !d.finishReason && !Contains(ChunkText(d), Paragraph);
      assert OnDelta(s, d) == Stream(s.acm + ChunkText(d), s.utterances, false);
      assert PlainContent(ds[1..]) && Unbroken(ds[1..]) by {
        forall k | 0 <= k < |ds[1..]|
          ensures !ds[1..][k].functionCall && !ds[1..][k].finishReason
          ensures !Contains(ChunkText(ds[1..][k]), Paragraph)
        {
          assert ds[1..][k] == ds[k + 1];
        }
      }
      UnbrokenChunksAccumulate(OnDelta(s, d), ds[1..]);
      assert Received(ds) == ChunkText(d) + Received(ds[1..]);
      assert s.acm + ChunkText(d) + Received(ds[1..]) == s.acm + Received(ds);
    }
  }

  lemma ConcatAppend(ss: seq<string>, x: string)
    ensures Concat(ss + [x]) == Concat(ss) + x
  {
    assert (ss + [x])[..|ss|] == ss;
  }

  /** One plain delta moves text from the input to the accumulator or the utterances, losing none. */
  lemma PlainStepKeepsText(s: Stream, d: Delta)
    requires !s.finalized && !d.functionCall && !d.finishReason
    ensures !OnDelta(s, d).finalized
    ensures Concat(OnDelta(s, d).utterances) + OnDelta(s, d).acm == Concat(s.utterances) + s.acm + ChunkText(d)
  {
    if HasContent(d) && Contains(d.content.value, Paragraph) {
      ConcatAppend(s.utterances, s.acm + d.content.value);
    }
  }

  /**
   * Nothing is lost or reordered before the end of the response: the utterances emitted,
   * followed by the accumulator, spell out exactly the content received.
   */
  lemma {:induction false} StreamPreservesText(s: Stream, ds: seq<Delta>)
    requires !s.finalized && PlainContent(ds)
    ensures !Fold(s, ds).finalized
    ensures Concat(Fold(s, ds).utterances) + Fold(s, ds).acm == Concat(s.utterances) + s.acm + Received(ds)
    decreases |ds|
  {
    if ds != [] {
      var d := ds[0];
      var s' := OnDelta(s, d);
      PlainStepKeepsText(s, d);
      assert PlainContent(ds[1..]) by {
        forall k | 0 <= k < |ds[1..]| ensures !ds[1..][k].functionCall && !ds[1..][k].finishReason {
          assert ds[1..][k] == ds[k + 1];
        }
      }
      StreamPreservesText(s', ds[1..]);
      assert Fold(s, ds) == Fold(s', ds[1..]);
      assert Received(ds) == ChunkText(d) + Received(ds[1..]);
    }
  }

  /** A response that ends with a finish delta says, in all, exactly the content it streamed. */
  lemma FinishedStreamSaysEverything(ds: seq<Delta>, finish: Delta)
    requires PlainContent(ds) && !finish.functionCall && finish.finishReason
    ensures Fold(Start(), ds + [finish]).finalized
    ensures Concat(Fold(Start(), ds + [finish]).utterances) == Received(ds)
  {
    StreamPreservesText(Start(), ds);
    FoldAppend(Start(), ds, finish);
    var s := Fold(Start(), ds);
    ConcatAppend(s.utterances, s.acm);
  }

  lemma {:induction false} FoldAppend(s: Stream, ds: seq<Delta>, d: Delta)
    ensures Fold(s, ds + [d]) == OnDelta(Fold(s, ds), d)
    decreases |ds|
  {
    if ds == [] {
      assert [d][1..] == [];
    } else {
      assert (ds + [d])[1..] == ds[1..] + [d];
      FoldAppend(OnDelta(s, ds[0]), ds[1..], d);
    }
  }

  /** A child answer registered on a dispatcher: the question it answers. */
  datatype Child = Child(question: string)

  class Dispatcher {
    var utterances: seq<string>
    var finalized: bool
    var hasErrored: bool
    var children: seq<Child>

    constructor ()
      ensures utterances == [] && !finalized && !hasErrored && children == []
    {
      utterances := [];
      finalized := false;
      hasErrored := false;
      children := [];
    }

    predicate IsFinalized()
      reads this
    {
      finalized
    }

    method AddUtterance(text: string)
      modifies this
      ensures utterances == old(utterances) + [text]
      ensures finalized == old(finalized) && hasErrored == old(hasErrored) && children == old(children)
    {
      utterances := utterances + [text];
    }

    method Finalize()
      modifies this
      ensures finalized
      ensures utterances == old(utterances) && hasErrored == old(hasErrored) && children == old(children)
    {
      finalized := true;
    }

    method AddChild(child: Child)
      modifies this
      ensures children == old(children) + [child]
      ensures utterances == old(utterances) && finalized == old(finalized) && hasErrored == old(hasErrored)
    {
      children := children + [child];
    }
  }

  /**
   * How the chat call of finalPrompt ended: it threw, or it returned a response, with no
   * function call, with a function call whose arguments did not parse (Some(None)), or
   * with one asking the question q (Some(Some(q))).
   */
  datatype ChatResult = Threw | Responded(functionCall: Option<Option<string>>)

  /** The streaming part of one finalPrompt call, driving `dispatcher`. */
  class ResponseStream {
    var acm: string
    const dispatcher: Dispatcher

    constructor (dispatcher: Dispatcher)
      ensures this.dispatcher == dispatcher && acm == ""
    {
      this.dispatcher := dispatcher;
      acm := "";
    }

    function View(): Stream
      reads this, dispatcher
    {
      Stream(acm, dispatcher.utterances, dispatcher.finalized)
    }

    /** The onMessage callback for one streamed chunk. */
    method OnMessage(d: Delta)
      modifies this, dispatcher
      ensures View() == OnDelta(old(View()), d)
      ensures dispatcher.hasErrored == old(dispatcher.hasErrored) && dispatcher.children == old(dispatcher.children)
    {
      if d.functionCall {
        if !dispatcher.IsFinalized() {
          dispatcher.AddUtterance(ThinkingMessage);
          dispatcher.Finalize();
        }
      } else {
        if dispatcher.IsFinalized() {
          // a chunk after finalization is ignored
        } else {
          if !d.finishReason {
            if HasContent(d) {
              var content := d.content.value;
              if Contains(content, Paragraph) {
                dispatcher.AddUtterance(acm + content);
                acm := "";
              } else {
                acm := acm + content;
              }
            }
          } else {
            dispatcher.AddUtterance(acm);
            dispatcher.Finalize();
          }
        }
      }
    }

    /**
     * After the chat call: a thrown error marks the dispatcher as errored; a function call
     * whose arguments give a question registers the answer to it as a child; nothing else
     * changes the dispatcher.
     */
    method Settle(result: ChatResult)
      modifies dispatcher
      ensures dispatcher.hasErrored == (old(dispatcher.hasErrored) || result.Threw?)
      ensures dispatcher.children ==
                if result.Responded? && result.functionCall.Some? && result.functionCall.value.Some?
                then old(dispatcher.children) + [Child(result.functionCall.value.value)]
                else old(dispatcher.children)
      ensures dispatcher.utterances == old(dispatcher.utterances) && dispatcher.finalized == old(dispatcher.finalized)
    {
      match result
      case Threw =>
        dispatcher.hasErrored := true;
      case Responded(functionCall) =>
        if functionCall.Some? && functionCall.value.Some? {
          dispatcher.AddChild(Child(functionCall.value.value));
        }
    }
  }

  /**
   * `/yes/i.test(content)`: the reply contains "yes" in any case.  The pattern is ASCII, and
   * an `i` regular expression without the `u` flag never matches a non-ASCII character
   * against an ASCII one, so ASCII folding is exact here.
   */
  function IsYes(content: string): (r: bool)
    ensures r <==> exists i :: OccursAt(Lower(content), "yes", i)
  {
    assert Lower("yes") == "yes";
    ContainsIff(Lower(content), "yes");
    ContainsIgnoreCase(content, "yes")
  }

  /** answerQuestion adds the activity hint only when there is an activity and the check said yes. */
  function ShowActivityHint(activityName: Option<string>, checkReply: string): bool
  {
    activityName.Some? && IsYes(checkReply)
  }

  /** The input given to the agent for a follow-up question. */
  function AgentInput(question: string, activityName: Option<string>, showHint: bool): (r: string)
    requires showHint ==> activityName.Some?
    ensures EndsWith(r, question)
    ensures !showHint ==> r == question
    ensures showHint ==> StartsWith(r, "[HINT: This question may be about " + activityName.value + "] ")
    ensures showHint ==> |r| == |"[HINT: This question may be about " + activityName.value + "] "| + |question|
  {
    (if showHint then "[HINT: This question may be about " + activityName.value + "] " else "") + question
  }

  /**
   * answerQuestion after the agent call: on success (Some output) one new dispatcher that
   * holds exactly the output and is already finalized; on failure no dispatcher at all.
   */
  method AnswerQuestion(agentOutput: Option<string>) returns (answer: Option<Dispatcher>)
    ensures answer.Some? <==> agentOutput.Some?
    ensures answer.Some? ==> fresh(answer.value)
    ensures answer.Some? ==> answer.value.utterances == [agentOutput.value] && answer.value.finalized
                             && !answer.value.hasErrored && answer.value.children == []
  {
    answer := None;
    if agentOutput.Some? {
      var d := new Dispatcher();
      d.AddUtterance(agentOutput.value);
      d.Finalize();
      answer := Some(d);
    }
  }

  /** `array.join(separator)`. */
  function Join(items: seq<string>, separator: string): string
  {
    if items == [] then "" else if |items| == 1 then items[0] else items[0] + separator + Join(items[1..], separator)
  }

  const ClosingInstructions: string :=
    "\n\nSkip two lines between every sentence in your response.\n\nBe concise with your responses.\n\n"

  function ActivityNote(activityName: Option<string>): string
  {
    if activityName.Some? then
      "\n" + activityName.value + " is going on in the background in a different channel. If the question is about this say you need to use external resources.\n"
    else ""
  }

  /** How every system prompt starts. */
  function Intro(botName: string): string
  {
    "You are " + botName + " a discord bot"
  }

  /** The conversation text followed by the closing instructions: how every system prompt ends. */
  function Tail(conversationText: string): string
  {
    Paragraph + conversationText + ClosingInstructions
  }

  function HintNote(latentSynopsis: Option<string>): string
  {
    if Conversation.HasSynopsis(latentSynopsis) then "\n\n[Hint: " + latentSynopsis.value + "]" else ""
  }

  /**
   * The system prompt of finalSystem.  `dateText` is `new Date().toString()`, `users` the
   * channel's user names and `latentSynopsis` the synopsis of the overheard conversation.
   */
  function FinalSystem(botName: string, dateText: string, users: seq<string>, conversationText: string,
                       latentSynopsis: Option<string>, activityName: Option<string>): string
  {
    Assemble(Intro(botName), SystemBody(dateText, users, activityName), HintNote(latentSynopsis), Tail(conversationText))
  }

  /** The system prompt put together from its four parts. */
  function Assemble(intro: string, body: string, note: string, tail: string): string
  {
    intro + body + "so far:" + note + tail
  }

  /** The prompt starts with the bot's name and ends with the conversation text and the closing instructions. */
  lemma FinalSystemFrame(botName: string, dateText: string, users: seq<string>, conversationText: string,
                         latentSynopsis: Option<string>, activityName: Option<string>)
    ensures var r := FinalSystem(botName, dateText, users, conversationText, latentSynopsis, activityName);
      StartsWith(r, Intro(botName)) && EndsWith(r, Tail(conversationText))
  {
    FinalSystemShape(Intro(botName), SystemBody(dateText, users, activityName), latentSynopsis, Tail(conversationText));
  }

  /**
   * The hint with the overheard synopsis stands right before the conversation text exactly
   * when that synopsis is non-empty; otherwise "so far:" does.
   */
  lemma FinalSystemHint(botName: string, dateText: string, users: seq<string>, conversationText: string,
                        latentSynopsis: Option<string>, activityName: Option<string>)
    ensures var r := FinalSystem(botName, dateText, users, conversationText, latentSynopsis, activityName);
      EndsWith(r, HintLead(latentSynopsis) + Tail(conversationText))
  {
    HintShape(Intro(botName), SystemBody(dateText, users, activityName), latentSynopsis, Tail(conversationText));
  }

  function HintLead(latentSynopsis: Option<string>): string
  {
    if Conversation.HasSynopsis(latentSynopsis) then "[Hint: " + latentSynopsis.value + "]" else "so far:"
  }

  /** The middle of the system prompt, from after the bot's name up to "so far:". */
  function SystemBody(dateText: string, users: seq<string>, activityName: Option<string>): string
  {
    " in a voice channel know for being concise with your responses.\n\nThe current date time is "
      + dateText + ".\n\nThe discord voice channel currently has the following users: " + Join(users, ", ")
      + "\n\nYou will need to consult external resources to learn about current events.\n" + ActivityNote(activityName)
      + "\nThe following is the conversation that has occurred "
  }

  /** Where the four parts of the system prompt stand. */
  lemma FinalSystemShape(intro: string, body: string, latentSynopsis: Option<string>, tail: string)
    ensures var r := Assemble(intro, body, HintNote(latentSynopsis), tail);
      StartsWith(r, intro) && EndsWith(r, tail)
  {
    var note := HintNote(latentSynopsis);
    assert Assemble(intro, body, note, tail) == intro + (body + "so far:" + note) + tail;
    PieceOf(intro, body + "so far:" + note, tail);
  }

  /** What stands before the tail of the system prompt. */
  lemma HintShape(intro: string, body: string, latentSynopsis: Option<string>, tail: string)
    ensures EndsWith(Assemble(intro, body, HintNote(latentSynopsis), tail), HintLead(latentSynopsis) + tail)
  {
    var note := HintNote(latentSynopsis);
    if Conversation.HasSynopsis(latentSynopsis) {
      var h := "[Hint: " + latentSynopsis.value + "]";
      assert note == "\n\n" + h;
      assert Assemble(intro, body, note, tail) == (intro + body + "so far:" + "\n\n") + (h + tail);
      SuffixOf(intro + body + "so far:" + "\n\n", h + tail);
    } else {
      assert Assemble(intro, body, note, tail) == (intro + body) + ("so far:" + tail);
      SuffixOf(intro + body, "so far:" + tail);
    }
  }

  /** A concatenation ends with its second piece. */
  lemma SuffixOf(a: string, b: string)
    ensures EndsWith(a + b, b)
  {
    assert (a + b)[|a + b| - |b|..] == b;
  }

  /** A concatenation starts with its first piece and ends with its last. */
  lemma PieceOf(a: string, b: string, c: string)
    ensures StartsWith(a + b + c, a) && EndsWith(a + b + c, c)
  {
    assert (a + b + c)[..|a|] == a;
    assert (a + b + c)[|a + b + c| - |c|..] == c;
  }
}
