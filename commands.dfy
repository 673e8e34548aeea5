/**
 * The slash commands of the interactive loop (src/commands.py): `/exit`,
 * `/help`, `/add-context`, `/spec` and `/copy`, dispatched on the first
 * word of the lower-cased command line. The chat history is the list the
 * loop owns; `/add-context` appends to it in place and every result hands
 * the same list back.
 */
module Commands {
  import opened Text

  /** `CommandType` */
  datatype CommandType = Continue | Exit | AgentQuery | Copy

  /** The arguments of a tool call: a decoded dictionary, or JSON text not yet decoded. */
  datatype Args = ArgsDict(dict: map<string, string>) | ArgsJson(json: string)

  /** The message parts the commands create or inspect; all others are `OtherPart`. */
  datatype Part = UserPromptPart(content: string) | ToolCallPart(toolName: string, args: Args) | OtherPart

  /** A message sent to the model, or one received from it. */
  datatype Message = ModelRequest(parts: seq<Part>) | ModelResponse(parts: seq<Part>)

  /** The conversation so far: the list `previous_messages` the loop passes in and keeps. */
  class History {
    var messages: seq<Message>

    constructor (messages: seq<Message>)
      ensures this.messages == messages
    {
      this.messages := messages;
    }
  }

  /** `CommandResult`: `messages` is the caller's history object itself. */
  datatype CommandResult = CommandResult(kind: CommandType, messages: History, agentPrompt: Option<string>)

  // ---------------------------------------------------------------------------
  // Finding the latest final answer

  /** A response whose first part is a call of `final_result` with decoded arguments. */
  predicate IsFinalResultCall(m: Message)
  {
    && m.ModelResponse?
    && |m.parts| > 0
    && m.parts[0].ToolCallPart?
    && m.parts[0].toolName == "final_result"
    && m.parts[0].args.ArgsDict?
  }

  /** The position of the latest `final_result` call in `ms`, if there is one. */
  function LastFinalCall(ms: seq<Message>): (i: Option<nat>)
    ensures i.Some? ==> i.value < |ms| && IsFinalResultCall(ms[i.value])
    ensures i.Some? ==> forall j :: i.value < j < |ms| ==> !IsFinalResultCall(ms[j])
    ensures i.None? ==> forall j :: 0 <= j < |ms| ==> !IsFinalResultCall(ms[j])
    decreases |ms|
  {
    if ms == [] then None
    else if IsFinalResultCall(ms[|ms| - 1]) then Some(|ms| - 1)
    else LastFinalCall(ms[..|ms| - 1])
  }

  /** `args_dict.get('answer')` of a `final_result` call. */
  function AnswerOf(m: Message): Option<string>
    requires IsFinalResultCall(m)
  {
    var dict := m.parts[0].args.dict;
    if "answer" in dict then Some(dict["answer"]) else None
  }

  /**
   * The answer `/copy` takes: that of the latest `final_result` call. An
   * earlier call is never consulted, even when the latest one has no answer.
   */
  function FinalAnswer(ms: seq<Message>): Option<string>
  {
    match LastFinalCall(ms)
    case None => None
    case Some(i) => AnswerOf(ms[i])
  }

  /** The backwards search of `/copy`, stopping at the first `final_result` call it meets. */
  method FindFinalResult(messages: seq<Message>) returns (finalResult: Option<string>)
    ensures finalResult == FinalAnswer(messages)
  {
    finalResult := None;
    var i := |messages|;
    while i > 0
      invariant 0 <= i <= |messages|
      invariant forall j :: i <= j < |messages| ==> !IsFinalResultCall(messages[j])
      invariant finalResult == None
    {
      i := i - 1;
      var message := messages[i];
      if IsFinalResultCall(message) {
        finalResult := AnswerOf(message);
        assert LastFinalCall(messages) == Some(i);
        return;
      }
    }
    assert LastFinalCall(messages) == None;
  }

  // ---------------------------------------------------------------------------
  // handle_command

  /** Python's `s[n:]` for a non-negative `n`. */
  function SliceFrom(s: string, n: nat): (r: string)
    ensures |r| == if n <= |s| then |s| - n else 0
    ensures n <= |s| ==> r == s[n..]
  {
    if n <= |s| then s[n..] else []
  }

  /** `command.lower().split(maxsplit=1)`: the command word and, when anything follows it, the rest. */
  function Words(command: string): (parts: seq<string>)
    ensures |parts| <= 2
    ensures parts == [] <==> IsBlank(command)
    ensures |parts| >= 1 ==> parts[0] != [] && forall k :: 0 <= k < |parts[0]| ==> !IsSpace(parts[0][k])
    ensures |parts| >= 1 ==> FirstWordAndRest(AsciiLower(command), parts)
  {
    LowerKeepsBlank(command);
    SplitOnceParts(AsciiLower(command));
    SplitOnce(AsciiLower(command))
  }

  /** The message `/add-context` appends. */
  function ContextMessage(command: string): Message
  {
    ModelRequest([UserPromptPart("Context: " + Strip(SliceFrom(command, |"/add-context"|)))])
  }

  /** What a command leads to: its type, the history afterwards, the prompt for the agent and what goes to the clipboard. */
  datatype Reply = Reply(kind: CommandType, history: seq<Message>, agentPrompt: Option<string>, clipboard: Option<string>)

  /**
   * `handle_command` once the command line is split into `parts`: `None` is
   * the `IndexError` of `parts[0]` on a blank command.
   */
  function Dispatch(parts: seq<string>, command: string, history: seq<Message>, specPrompt: string -> string): Option<Reply>
  {
    if parts == [] then None
    else
      var cmd := parts[0];
      if cmd == "/exit" then Some(Reply(Exit, history, None, None))
      else if cmd == "/add-context" && |parts| > 1 then
        Some(Reply(Continue, history + [ContextMessage(command)], None, None))
      else if cmd == "/spec" && |parts| > 1 then
        Some(Reply(AgentQuery, history, Some(specPrompt(Strip(SliceFrom(command, |"/spec"|)))), None))
      else if cmd == "/copy" && history != [] && FinalAnswer(history).Some? then
        Some(Reply(Copy, history, None, FinalAnswer(history)))
      else Some(Reply(Continue, history, None, None))
  }

  /** `handle_command` as a function of the command line, the history and the filling of the `/spec` prompt template. */
  function Handle(command: string, history: seq<Message>, specPrompt: string -> string): Option<Reply>
  {
    Dispatch(Words(command), command, history, specPrompt)
  }

  /**
   * `handle_command`. `copied` is what goes to the clipboard. The result
   * carries the caller's own history object, extended by `/add-context`.
   */
  method HandleCommand(command: string, history: History, specPrompt: string -> string)
    returns (result: Option<CommandResult>, copied: Option<string>)
    modifies history
    ensures var reply := Handle(command, old(history.messages), specPrompt);
            && (result.None? <==> reply.None?)
            && (reply.None? ==> history.messages == old(history.messages) && copied.None?)
            && (reply.Some? ==>
                  && result.value.messages == history
                  && result.value.kind == reply.value.kind
                  && result.value.agentPrompt == reply.value.agentPrompt
                  && history.messages == reply.value.history
                  && copied == reply.value.clipboard)
  {
    var parts := Words(command);
    result, copied := DispatchCommand(parts, command, history, specPrompt);
  }

  /** The `match` of `handle_command` on the words of the command line. */
  method DispatchCommand(parts: seq<string>, command: string, history: History, specPrompt: string -> string)
    returns (result: Option<CommandResult>, copied: Option<string>)
    modifies history
    ensures var reply := Dispatch(parts, command, old(history.messages), specPrompt);
            && (result.None? <==> reply.None?)
            && (reply.None? ==> history.messages == old(history.messages) && copied.None?)
            && (reply.Some? ==>
                  && result.value.messages == history
                  && result.value.kind == reply.value.kind
                  && result.value.agentPrompt == reply.value.agentPrompt
                  && history.messages == reply.value.history
                  && copied == reply.value.clipboard)
  {
    copied := None;
    if |parts| == 0 {
      result := None;
      return;
    }
    var cmd := parts[0];
    if cmd == "/exit" {
      result := Some(CommandResult(Exit, history, None));
    } else if cmd == "/help" {
      result := Some(CommandResult(Continue, history, None));
    } else if cmd == "/add-context" {
      if |parts| > 1 {
        var context := Strip(SliceFrom(command, |"/add-context"|));
        history.messages := history.messages + [ModelRequest([UserPromptPart("Context: " + context)])];
      }
      result := Some(CommandResult(Continue, history, None));
    } else if cmd == "/spec" {
      if |parts| > 1 {
        var specName := Strip(SliceFrom(command, |"/spec"|));
        result := Some(CommandResult(AgentQuery, history, Some(specPrompt(specName))));
      } else {
        result := Some(CommandResult(Continue, history, None));
      }
    } else if cmd == "/copy" {
      if history.messages == [] {
        result := Some(CommandResult(Continue, history, None));
      } else {
        var finalResult := FindFinalResult(history.messages);
        if finalResult.None? {
          result := Some(CommandResult(Continue, history, None));
        } else {
          copied := finalResult;
          result := Some(CommandResult(Copy, history, None));
        }
      }
    } else {
      result := Some(CommandResult(Continue, history, None));
    }
  }

  // ---------------------------------------------------------------------------
  // Properties of the commands

  /** Lower-casing neither creates nor removes whitespace. */
  lemma LowerKeepsBlank(s: string)
    ensures IsBlank(AsciiLower(s)) <==> IsBlank(s)
  {
    var t := AsciiLower(s);
    forall k | 0 <= k < |s| ensures IsSpace(t[k]) <==> IsSpace(s[k]) {
      if 'A' <= s[k] <= 'Z' {
        assert 'a' <= t[k] <= 'z';
      }
    }
  }

  /** Lower-casing twice is lower-casing once. */
  lemma LowerIdempotent(s: string)
    ensures AsciiLower(AsciiLower(s)) == AsciiLower(s)
  {
    var t := AsciiLower(s);
    var u := AsciiLower(t);
    forall k | 0 <= k < |s| ensures u[k] == t[k] {
      if 'A' <= s[k] <= 'Z' {
        assert 'a' <= t[k] <= 'z';
      }
    }
  }

  /** A command fails exactly when it is blank; every other line gets a result. */
  lemma FailsOnlyWhenBlank(command: string, history: seq<Message>, specPrompt: string -> string)
    ensures Handle(command, history, specPrompt).None? <==> IsBlank(command)
  {
    DispatchFails(Words(command), command, history, specPrompt);
  }

  lemma DispatchFails(parts: seq<string>, command: string, history: seq<Message>, specPrompt: string -> string)
    ensures Dispatch(parts, command, history, specPrompt).None? <==> parts == []
  {
  }

  /** Commands are recognised whatever their case: a lower-cased line leads to the same kind of result. */
  lemma CaseInsensitive(command: string, history: seq<Message>, specPrompt: string -> string)
    ensures var a := Handle(command, history, specPrompt);
            var b := Handle(AsciiLower(command), history, specPrompt);
            && (a.None? <==> b.None?)
            && (a.Some? ==> a.value.kind == b.value.kind && a.value.clipboard == b.value.clipboard)
  {
    WordsOfLower(command);
    DispatchIgnoresLine(Words(command), command, AsciiLower(command), history, specPrompt);
  }

  /** The parse ignores case, so the lower-cased line splits into the same words. */
  lemma WordsOfLower(command: string)
    ensures Words(AsciiLower(command)) == Words(command)
  {
    LowerIdempotent(command);
  }

  /** What a command does, apart from the text it quotes, depends only on its words and the history. */
  lemma DispatchIgnoresLine(parts: seq<string>, c1: string, c2: string, history: seq<Message>, specPrompt: string -> string)
    ensures var a := Dispatch(parts, c1, history, specPrompt);
            var b := Dispatch(parts, c2, history, specPrompt);
            && (a.None? <==> b.None?)
            && (a.Some? ==> a.value.kind == b.value.kind && a.value.clipboard == b.value.clipboard
                            && |a.value.history| == |b.value.history|)
  {
  }

  /** Only `/add-context` with text changes the history, and then it appends exactly one user message. */
  lemma HistoryOnlyGrowsByContext(parts: seq<string>, command: string, history: seq<Message>, specPrompt: string -> string)
    requires parts != []
    ensures var r := Dispatch(parts, command, history, specPrompt).value;
            && history <= r.history
            && |r.history| <= |history| + 1
            && (|r.history| == |history| + 1 <==> parts[0] == "/add-context" && |parts| > 1)
            && (|r.history| == |history| + 1 ==>
                  r.history[|history|] == ModelRequest([UserPromptPart("Context: " + Strip(SliceFrom(command, 12)))]))
  {
  }

  /** `/add-context` without text is a no-op that keeps the loop going. */
  lemma EmptyContextIgnored(parts: seq<string>, command: string, history: seq<Message>, specPrompt: string -> string)
    requires parts == ["/add-context"]
    ensures Dispatch(parts, command, history, specPrompt) == Some(Reply(Continue, history, None, None))
  {
  }

  /** Only `/spec` with a name hands a prompt to the agent: the template filled with the stripped name. */
  lemma SpecPrompt(parts: seq<string>, command: string, history: seq<Message>, specPrompt: string -> string)
    requires parts != []
    ensures var r := Dispatch(parts, command, history, specPrompt).value;
            && (r.kind == AgentQuery <==> r.agentPrompt.Some?)
            && (r.kind == AgentQuery <==> parts[0] == "/spec" && |parts| > 1)
            && (r.kind == AgentQuery ==> r.agentPrompt == Some(specPrompt(Strip(SliceFrom(command, 5)))))
            && (parts == ["/spec"] ==> r.kind == Continue)
  {
  }

  /** `/copy` copies exactly when the latest `final_result` call carries an answer, and copies that answer. */
  lemma CopyTakesLatestAnswer(parts: seq<string>, command: string, history: seq<Message>, specPrompt: string -> string)
    requires parts != []
    ensures var r := Dispatch(parts, command, history, specPrompt).value;
            && (r.kind == Copy <==> r.clipboard.Some?)
            && (r.kind == Copy <==> parts[0] == "/copy" && FinalAnswer(history).Some?)
            && (parts[0] == "/copy" && FinalAnswer(history).None? ==> r.kind == Continue)
            && (history == [] ==> r.kind != Copy)
            && (r.kind == Copy ==>
                  exists i :: 0 <= i < |history| && IsFinalResultCall(history[i]) && r.clipboard == AnswerOf(history[i])
                              && forall j :: i < j < |history| ==> !IsFinalResultCall(history[j]))
  {
    var r := Dispatch(parts, command, history, specPrompt).value;
    if r.kind == Copy {
      var i := LastFinalCall(history).value;
      assert r.clipboard == AnswerOf(history[i]);
    }
  }

  /** Only `/exit` ends the loop; every word but `/spec` and `/copy` continues it. */
  lemma ExitOnlyOnExit(parts: seq<string>, command: string, history: seq<Message>, specPrompt: string -> string)
    requires parts != []
    ensures var r := Dispatch(parts, command, history, specPrompt).value;
            && (r.kind == Exit <==> parts[0] == "/exit")
            && (parts[0] != "/exit" && parts[0] != "/spec" && parts[0] != "/copy" ==> r.kind == Continue)
  {
  }

  /** The last `final_result` call of a longer history is the new one when it is such a call, else the old one. */
  lemma {:induction false} FinalAnswerAppend(ms: seq<Message>, m: Message)
    ensures FinalAnswer(ms + [m]) == if IsFinalResultCall(m) then AnswerOf(m) else FinalAnswer(ms)
  {
    var all := ms + [m];
    assert all[|all| - 1] == m;
    assert all[..|all| - 1] == ms;
  }

  /** A context message never hides a final answer from `/copy`. */
  lemma ContextKeepsFinalAnswer(command: string, ms: seq<Message>)
    ensures FinalAnswer(ms + [ContextMessage(command)]) == FinalAnswer(ms)
  {
    FinalAnswerAppend(ms, ContextMessage(command));
  }
}
