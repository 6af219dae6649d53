/** The multi-language handoff program (handoff_pattern.py; AgentsSDKPlaybook.py
    is the same program): a triage agent that answers with a structured
    `TriageDecision` and three translator agents that hand control back to it,
    driven by a conversation loop. `Runner.run` is a language-model call; here it
    is the oracle `run`, a function from the agent, the input history and the
    number of runs made so far in the session to the run's result. */
module Handoff {
  import opened Common
  import opened Agents

  // ---------------------------------------------------------------------
  // TriageDecision

  datatype TriageAction = HandoffToFrench | HandoffToSpanish | HandoffToGerman | Complete

  function ActionName(a: TriageAction): string {
    match a
    case HandoffToFrench => "handoff_to_french"
    case HandoffToSpanish => "handoff_to_spanish"
    case HandoffToGerman => "handoff_to_german"
    case Complete => "complete"
  }

  /** The `Literal[...]` check pydantic applies to `action`. */
  function ParseAction(s: string): (r: Option<TriageAction>)
    ensures r.Some? <==> s in {"handoff_to_french", "handoff_to_spanish", "handoff_to_german", "complete"}
    ensures r.Some? ==> ActionName(r.value) == s
  {
    if s == "handoff_to_french" then Some(HandoffToFrench)
    else if s == "handoff_to_spanish" then Some(HandoffToSpanish)
    else if s == "handoff_to_german" then Some(HandoffToGerman)
    else if s == "complete" then Some(Complete)
    else None
  }

  lemma ActionNameRoundTrip(a: TriageAction)
    ensures ParseAction(ActionName(a)) == Some(a)
  {
  }

  datatype TriageDecision = TriageDecision(action: TriageAction, message: string, remainingLanguages: seq<string>)

  /** Validation of a decision whose `remaining_languages` may be omitted. */
  function ValidateTriageDecision(action: string, message: string, remaining: Option<seq<string>>): (r: Option<TriageDecision>)
    ensures r.Some? <==> ParseAction(action).Some?
    ensures r.Some? ==> ActionName(r.value.action) == action && r.value.message == message
    ensures r.Some? && remaining.None? ==> r.value.remainingLanguages == []
    ensures r.Some? && remaining.Some? ==> r.value.remainingLanguages == remaining.value
  {
    match ParseAction(action)
    case None => None
    case Some(a) => Some(TriageDecision(a, message, if remaining.Some? then remaining.value else []))
  }

  // ---------------------------------------------------------------------
  // Agents

  /** `create_agents`: specialists are built with no handoffs, the triage agent
      with all three, and then each specialist is pointed back at triage. */
  method CreateAgents() returns (triage: Agent, french: Agent, spanish: Agent, german: Agent)
    ensures fresh(triage) && fresh(french) && fresh(spanish) && fresh(german)
    ensures triage.handoffs == [french, spanish, german]
    ensures french.handoffs == [triage] && spanish.handoffs == [triage] && german.handoffs == [triage]
    ensures triage.outputType == TriageDecisionType
    ensures french.outputType == PlainText && spanish.outputType == PlainText && german.outputType == PlainText
    ensures triage.name == "triage_agent" && french.name == "french_agent"
    ensures spanish.name == "spanish_agent" && german.name == "german_agent"
  {
    french := new Agent("french_agent", PlainText, [], []);
    spanish := new Agent("spanish_agent", PlainText, [], []);
    german := new Agent("german_agent", PlainText, [], []);
    triage := new Agent("triage_agent", TriageDecisionType, [], [french, spanish, german]);
    french.SetHandoffs([triage]);
    spanish.SetHandoffs([triage]);
    german.SetHandoffs([triage]);
  }

  // ---------------------------------------------------------------------
  // Runs

  /** An entry of the input list: the user's message or an item a run produced. */
  datatype Item = UserMessage(content: string) | Generated(content: string)

  /** `final_output`: a `TriageDecision` or any other value (text). */
  datatype RunOutput = DecisionOutput(decision: TriageDecision) | TextOutput(text: string)

  /** A run's `last_agent`, `final_output` and new items; every run yields at
      least its final message item, so `newItems` is followed by `finalItem`. */
  datatype RunResult = RunResult(lastAgent: Agent, output: RunOutput, newItems: seq<Item>, finalItem: Item)

  type Runner = (Agent, seq<Item>, nat) -> RunResult

  /** `result.to_input_list()`: the run's input followed by what it produced. */
  function ToInputList(inputs: seq<Item>, r: RunResult): (h: seq<Item>)
    ensures |h| > |inputs| && h[..|inputs|] == inputs
  {
    inputs + r.newItems + [r.finalItem]
  }

  const HistoryLimit: nat := 20

  // ---------------------------------------------------------------------
  // The inner loop

  datatype Outcome = Completed | UnexpectedOutput | HistoryCapped

  datatype ConversationEnd = ConversationEnd(
    outcome: Outcome, agent: Agent, output: RunOutput, history: seq<Item>, runs: nat)

  predicate EndsAtCompletion(triage: Agent, r: RunResult) {
    r.lastAgent == triage && r.output.DecisionOutput? && r.output.decision.action == Complete
  }

  predicate EndsAtUnexpectedOutput(triage: Agent, r: RunResult) {
    r.lastAgent == triage && !r.output.DecisionOutput?
  }

  /** How many more runs can start from a history of n items: one, then one more
      for each item the history can grow by before it passes the limit. */
  function RunBudget(n: nat): nat {
    if n <= HistoryLimit then HistoryLimit + 1 - n else 1
  }

  /** The inner `while True` loop of `main`: run the current agent on the current
      history, continue with the run's last agent and full history, and stop on a
      completed triage decision, on a triage output that is not a decision, or
      once the history holds more than 20 items. `calls` counts earlier runs. */
  function Converse(run: Runner, triage: Agent, agent: Agent, inputs: seq<Item>, calls: nat): (e: ConversationEnd)
    ensures |e.history| > |inputs| && e.history[..|inputs|] == inputs
    ensures calls < e.runs <= calls + RunBudget(|inputs|)
    ensures e.outcome == Completed ==>
      e.agent == triage && e.output.DecisionOutput? && e.output.decision.action == Complete
    ensures e.outcome == UnexpectedOutput ==> e.agent == triage && e.output.TextOutput?
    ensures e.outcome == HistoryCapped ==> |e.history| > HistoryLimit
    decreases RunBudget(|inputs|)
  {
    var r := run(agent, inputs, calls);
    var h := ToInputList(inputs, r);
    if EndsAtCompletion(triage, r) then ConversationEnd(Completed, r.lastAgent, r.output, h, calls + 1)
    else if EndsAtUnexpectedOutput(triage, r) then ConversationEnd(UnexpectedOutput, r.lastAgent, r.output, h, calls + 1)
    else if |h| > HistoryLimit then ConversationEnd(HistoryCapped, r.lastAgent, r.output, h, calls + 1)
    else
      var e := Converse(run, triage, r.lastAgent, h, calls + 1);
      assert e.history[..|inputs|] == e.history[..|h|][..|inputs|];
      e
  }

  /** A conversation started from one user message makes at most 20 runs. */
  lemma ConversationRunsBounded(run: Runner, triage: Agent, msg: string, calls: nat)
    ensures Converse(run, triage, triage, [UserMessage(msg)], calls).runs - calls <= HistoryLimit
  {
  }

  /** The loop does not look at the agent a run ended at unless it is triage:
      a run that ends at a specialist (or at triage with an unfinished decision)
      within the limit is followed by a run of that same agent on the full history. */
  lemma {:induction false} ContinuesWithLastAgent(run: Runner, triage: Agent, agent: Agent, inputs: seq<Item>, calls: nat)
    requires var r := run(agent, inputs, calls);
      !EndsAtCompletion(triage, r) && !EndsAtUnexpectedOutput(triage, r)
      && |ToInputList(inputs, r)| <= HistoryLimit
    ensures var r := run(agent, inputs, calls);
      Converse(run, triage, agent, inputs, calls)
        == Converse(run, triage, r.lastAgent, ToInputList(inputs, r), calls + 1)
  {
  }

  /** The history cap: a triage run that ends the loop is reported as such even
      when the history is already past the limit. */
  lemma CompletionBeforeCap(run: Runner, triage: Agent, agent: Agent, inputs: seq<Item>, calls: nat)
    requires EndsAtCompletion(triage, run(agent, inputs, calls))
    ensures Converse(run, triage, agent, inputs, calls).outcome == Completed
    ensures Converse(run, triage, agent, inputs, calls).runs == calls + 1
  {
  }

  /** The inner loop as the program writes it. */
  method RunConversation(run: Runner, triage: Agent, agent0: Agent, inputs0: seq<Item>, calls0: nat)
    returns (e: ConversationEnd)
    ensures e == Converse(run, triage, agent0, inputs0, calls0)
  {
    var agent, inputs, calls := agent0, inputs0, calls0;
    while true
      invariant Converse(run, triage, agent, inputs, calls) == Converse(run, triage, agent0, inputs0, calls0)
      decreases RunBudget(|inputs|)
    {
      var result := run(agent, inputs, calls);
      ghost var before := inputs;
      inputs := ToInputList(inputs, result);
      agent := result.lastAgent;
      calls := calls + 1;
      if agent == triage {
        if result.output.DecisionOutput? {
          if result.output.decision.action == Complete {
            return ConversationEnd(Completed, agent, result.output, inputs, calls);
          }
        } else {
          return ConversationEnd(UnexpectedOutput, agent, result.output, inputs, calls);
        }
      }
      if |inputs| > HistoryLimit {
        return ConversationEnd(HistoryCapped, agent, result.output, inputs, calls);
      }
      assert |before| < |inputs|;
    }
  }

  // ---------------------------------------------------------------------
  // The outer loop

  /** `user_msg.lower() in ['quit', 'exit', 'bye']`. */
  predicate IsQuit(s: string) {
    Lower(s) in ["quit", "exit", "bye"]
  }

  /** The conversations of a session: the first message always starts one; each
      later message starts a new one at triage with a one-item history unless it
      is a quit word. Running out of messages (end of input) also ends it. */
  function Session(run: Runner, triage: Agent, msg: string, replies: seq<string>, calls: nat): (s: seq<ConversationEnd>)
    ensures |s| >= 1
    decreases |replies|
  {
    var e := Converse(run, triage, triage, [UserMessage(msg)], calls);
    if |replies| == 0 || IsQuit(replies[0]) then [e]
    else [e] + Session(run, triage, replies[0], replies[1..], e.runs)
  }

  /** Index of the first quit word among the replies, or their number. */
  function FirstQuit(replies: seq<string>): (q: nat)
    ensures q <= |replies|
    ensures forall i :: 0 <= i < q ==> !IsQuit(replies[i])
    ensures q < |replies| ==> IsQuit(replies[q])
  {
    if |replies| == 0 then 0
    else if IsQuit(replies[0]) then 0
    else 1 + FirstQuit(replies[1..])
  }

  /** The message that opens conversation k of a session. */
  function Opening(msg: string, replies: seq<string>, k: nat): string
    requires k <= |replies|
  {
    if k == 0 then msg else replies[k - 1]
  }

  /** One conversation per message up to the first quit word; each opens with
      that message alone (so the first message is never tested for quitting). */
  lemma {:induction false} SessionShape(run: Runner, triage: Agent, msg: string, replies: seq<string>, calls: nat)
    ensures var s := Session(run, triage, msg, replies, calls);
      && |s| == 1 + FirstQuit(replies)
      && forall k :: 0 <= k < |s| ==>
           |s[k].history| > 0 && s[k].history[0] == UserMessage(Opening(msg, replies, k))
    decreases |replies|
  {
    var s := Session(run, triage, msg, replies, calls);
    var e := Converse(run, triage, triage, [UserMessage(msg)], calls);
    assert e.history[..1] == [UserMessage(msg)];
    assert |s[0].history| > 0 && s[0].history[0] == UserMessage(msg);
    if |replies| == 0 || IsQuit(replies[0]) {
    } else {
      var rest := Session(run, triage, replies[0], replies[1..], e.runs);
      SessionShape(run, triage, replies[0], replies[1..], e.runs);
      assert s == [e] + rest;
      assert FirstQuit(replies) == 1 + FirstQuit(replies[1..]);
      forall k | 1 <= k < |s|
        ensures |s[k].history| > 0 && s[k].history[0] == UserMessage(Opening(msg, replies, k))
      {
        assert s[k] == rest[k - 1];
        assert Opening(replies[0], replies[1..], k - 1) == replies[k - 1];
      }
    }
  }

  /** One step of the outer loop: the conversation for `msg`, then the rest. */
  lemma SessionStep(run: Runner, triage: Agent, msg: string, replies: seq<string>, calls: nat)
    ensures var e := Converse(run, triage, triage, [UserMessage(msg)], calls);
      Session(run, triage, msg, replies, calls)
        == if |replies| == 0 || IsQuit(replies[0]) then [e]
           else [e] + Session(run, triage, replies[0], replies[1..], e.runs)
  {
  }

  /** `main`'s nested loops over the first message and the later replies. */
  method ConversationLoop(run: Runner, triage: Agent, firstMessage: string, replies: seq<string>)
    returns (conversations: seq<ConversationEnd>)
    ensures conversations == Session(run, triage, firstMessage, replies, 0)
  {
    var agent := triage;
    var msg := firstMessage;
    var i := 0;
    var calls := 0;
    conversations := [];
    while true
      invariant 0 <= i <= |replies| && agent == triage
      invariant conversations + Session(run, triage, msg, replies[i..], calls)
        == Session(run, triage, firstMessage, replies, 0)
      decreases |replies| - i
    {
      var inputs := [UserMessage(msg)];
      var e := RunConversation(run, triage, agent, inputs, calls);
      SessionStep(run, triage, msg, replies[i..], calls);
      if i == |replies| {
        return conversations + [e];
      }
      var userMsg := replies[i];
      if IsQuit(userMsg) {
        return conversations + [e];
      }
      assert replies[i..][1..] == replies[i + 1..];
      conversations := conversations + [e];
      calls := e.runs;
      msg := userMsg;
      agent := triage;
      i := i + 1;
    }
  }
}
