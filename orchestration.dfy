// The conversation orchestrator of the SMEC AI advisor: it decides the
// conversation stage from the number of user turns, estimates the token count,
// compresses long histories through a summary reply, and keeps one mutable
// state record per conversation id.
module Orchestration {
  import opened Wrappers
  import Text

  datatype Role = User | Assistant | System

  datatype Message = Message(role: Role, content: string)

  datatype Stage = Discovery | Exploration | Solution | Implementation

  function RoleName(r: Role): string
  {
    match r
    case User => "user"
    case Assistant => "assistant"
    case System => "system"
  }

  /** The order in which a conversation moves through the stages. */
  function StageRank(s: Stage): nat
  {
    match s
    case Discovery => 0
    case Exploration => 1
    case Solution => 2
    case Implementation => 3
  }

  // ---------------------------------------------------------------- prompts

  const BasePrompt: string :=
    "You are the SMEC AI Advisor, an intelligent assistant for the Small to Medium Enterprise Centre of Artificial Intelligence (SMEC AI). SMEC AI is an Australian Government-backed initiative that helps SMEs (Small: 1-19 employees, Medium: 20-199 employees) adopt both new and existing AI solutions.\n\nYour mission is to guide Australian SMEs through AI discovery, assessment, and implementation across four priority industries:\n- Agriculture: Precision farming, crop monitoring, supply chain optimization\n- Clean Energy: Grid optimization, predictive maintenance, energy forecasting  \n- Medical/Healthcare: Diagnostic assistance, patient flow, research acceleration\n- Enabling Capabilities: Process automation, quality control, predictive analytics (advanced manufacturing, technology)\n\nSMEC AI Services you can recommend:\n- AI Products & Consultations: For businesses ready to adopt existing solutions\n- One-on-One Consultations: Personalized guidance (500+ available)\n- Short Courses: AI skill development programs\n- AI Studio Program: 8-week intensive program for custom AI solution development\n\nKey Features:\n- Free service funded by Australian Government's AI Adopt program\n- Industry-specific AI recommendations based on business context\n- AI maturity evaluation and readiness assessment\n- ROI calculators and implementation timeline guidance\n- Connection to vetted AI solution providers and university partners\n- Grant and funding opportunity information\n\nDesign Principles:\n- Simplicity first: No technical jargon unless necessary\n- Action-oriented: Every conversation leads to clear next steps\n- Trust building: Transparent about AI capabilities and limitations\n- Inclusive design: Accessible to users of all technical backgrounds\n- Value-focused: Emphasizes practical business outcomes over technology\n\nAlways assess business size, industry sector, current technology usage, pain points, and budget constraints to provide personalized AI opportunity recommendations."

  const DiscoveryPrompt: string :=
    "Current conversation stage: DISCOVERY\nWelcome the user to SMEC AI and understand their business context. Ask about:\n- Industry sector (agriculture, clean energy, medical, enabling capabilities)\n- Business size (1-19 employees = small, 20-199 = medium)\n- Current technology usage and digital maturity\n- Specific business challenges or goals\n- AI knowledge level and previous experience"
  const ExplorationPrompt: string :=
    "Current conversation stage: EXPLORATION\nBased on their business context, explore specific AI opportunities. Discuss:\n- Relevant AI use cases for their industry and business size\n- Current pain points that AI could address\n- Budget considerations and implementation timeline\n- Technical readiness and resource requirements\n- Potential ROI and business impact"
  const SolutionPrompt: string :=
    "Current conversation stage: ASSESSMENT & SOLUTION\nProvide AI maturity evaluation and specific recommendations:\n- Assess readiness for different AI solutions\n- Prioritize opportunities by impact and feasibility\n- Recommend appropriate SMEC AI services (consultations, courses, AI Studio)\n- Provide realistic implementation timelines and resource requirements\n- Suggest vetted AI solutions from the product directory"
  const ImplementationPrompt: string :=
    "Current conversation stage: CONNECTION & NEXT STEPS\nGuide toward concrete action and SMEC AI service engagement:\n- Recommend specific SMEC AI services and programs\n- Provide direct links to book consultations or register for courses\n- Assess eligibility for the 8-week AI Studio Program\n- Offer conversation summary and recommendations for download\n- Connect with relevant university partners or tech providers\n- Inform about funding opportunities and grants"

  const DiscoveryQuestions: seq<string> := [
      "Which industry best describes your business: agriculture, clean energy, medical/healthcare, or enabling capabilities?",
      "How many employees does your business have?",
      "What specific business challenges are you hoping AI might help solve?",
      "What's your current level of experience with AI or digital technologies?",
      "Are you looking to improve efficiency, reduce costs, or explore new opportunities?"
    ]
  const ExplorationQuestions: seq<string> := [
      "What AI applications have you heard about in your industry that interest you?",
      "What's your estimated budget range for AI implementation?",
      "Do you have internal technical expertise, or would you need external support?",
      "What would be your ideal timeline for implementing an AI solution?",
      "Are there any specific processes or areas of your business you'd like to focus on?"
    ]
  const SolutionQuestions: seq<string> := [
      "Which of these AI opportunities seems most relevant to your immediate needs?",
      "Would you be interested in starting with a consultation to dive deeper into these options?",
      "Are you more interested in adopting existing AI solutions or developing something custom?",
      "What level of support would you prefer: self-guided learning, one-on-one guidance, or intensive program?",
      "Would you like me to check your eligibility for the AI Studio Program?"
    ]
  const ImplementationQuestions: seq<string> := [
      "Would you like me to help you book a consultation with one of our AI specialists?",
      "Are you interested in our short courses to build internal AI knowledge first?",
      "Should I provide you with a summary of our conversation and recommendations?",
      "Would information about available grants or funding opportunities be helpful?",
      "Are there other SMEs in your network who might benefit from SMEC AI services?"
    ]

  function StagePrompt(s: Stage): string
  {
    match s
    case Discovery => DiscoveryPrompt
    case Exploration => ExplorationPrompt
    case Solution => SolutionPrompt
    case Implementation => ImplementationPrompt
  }

  /** The system prompt for a stage: the base prompt, a blank line, the stage block. */
  function BuildSystemPrompt(s: Stage): string
  {
    BasePrompt + "\n\n" + StagePrompt(s)
  }

  /** Each stage gets its own system prompt. */
  lemma SystemPromptIdentifiesStage(s1: Stage, s2: Stage)
    requires s1 != s2
    ensures BuildSystemPrompt(s1) != BuildSystemPrompt(s2)
  {
    // the four stage blocks have four different lengths
    assert |StagePrompt(s1)| != |StagePrompt(s2)|;
  }

  function FollowUpQuestions(s: Stage): (qs: seq<string>)
    ensures |qs| == 5
    ensures forall i :: 0 <= i < |qs| ==> |qs[i]| > 0 && qs[i][|qs[i]| - 1] == '?'
  {
    match s
    case Discovery => DiscoveryQuestions
    case Exploration => ExplorationQuestions
    case Solution => SolutionQuestions
    case Implementation => ImplementationQuestions
  }

  // ---------------------------------------------------------------- stage and size

  function UserTurns(messages: seq<Message>): (n: nat)
    ensures n <= |messages|
  {
    if |messages| == 0 then 0
    else UserTurns(messages[..|messages| - 1]) + (if messages[|messages| - 1].role == User then 1 else 0)
  }

  lemma {:induction false} UserTurnsAppend(a: seq<Message>, b: seq<Message>)
    ensures UserTurns(a + b) == UserTurns(a) + UserTurns(b)
    decreases |b|
  {
    if |b| == 0 {
      assert a + b == a;
    } else {
      var b' := b[..|b| - 1];
      assert (a + b)[..|a + b| - 1] == a + b';
      UserTurnsAppend(a, b');
    }
  }

  /** The stage follows from the number of user turns: up to 2, 4 and 6, then beyond. */
  function DetermineStage(messages: seq<Message>): (s: Stage)
    ensures s == Discovery <==> UserTurns(messages) <= 2
    ensures s == Exploration <==> 3 <= UserTurns(messages) <= 4
    ensures s == Solution <==> 5 <= UserTurns(messages) <= 6
    ensures s == Implementation <==> UserTurns(messages) > 6
  {
    var n := UserTurns(messages);
    if n <= 2 then Discovery
    else if n <= 4 then Exploration
    else if n <= 6 then Solution
    else Implementation
  }

  /** A conversation that only grows never moves back to an earlier stage. */
  lemma StageNeverRegresses(earlier: seq<Message>, later: seq<Message>)
    requires |earlier| <= |later| && later[..|earlier|] == earlier
    ensures StageRank(DetermineStage(earlier)) <= StageRank(DetermineStage(later))
  {
    assert later == earlier + later[|earlier|..];
    UserTurnsAppend(earlier, later[|earlier|..]);
  }

  function Contents(messages: seq<Message>): (cs: seq<string>)
    ensures |cs| == |messages| && forall i :: 0 <= i < |messages| ==> cs[i] == messages[i].content
  {
    seq(|messages|, i requires 0 <= i < |messages| => messages[i].content)
  }

  /** A quarter of the length of all contents joined with single spaces, rounded up. */
  function EstimateTokenCount(messages: seq<Message>): (n: nat)
    ensures var len := |Text.Join(Contents(messages), " ")|; len <= 4 * n < len + 4
  {
    (|Text.Join(Contents(messages), " ")| + 3) / 4
  }

  /** The estimate counts every character of every turn plus one separator between turns. */
  lemma TokenEstimateCountsSeparators(messages: seq<Message>)
    requires |messages| > 0
    ensures var len := Text.TotalLength(Contents(messages)) + |messages| - 1;
      len <= 4 * EstimateTokenCount(messages) < len + 4
  {
    Text.JoinLength(Contents(messages), " ");
  }

  // ---------------------------------------------------------------- compression

  const CompressionThreshold: nat := 8000
  const SummaryInstruction: string :=
    "Summarize the following conversation history concisely, preserving key context and decisions:"
  const SummaryFallback: string := "Previous conversation context unavailable."
  const SummaryPrefix: string := "Previous conversation summary: "

  /**
   * What the summarisation call produced: it threw, or it answered with the
   * content of its first choice (absent when the reply had no choice or no content).
   */
  datatype SummaryReply = Threw | Replied(content: Option<string>)

  function SummaryText(reply: SummaryReply): (t: string)
    requires reply.Replied?
    ensures t != ""
  {
    if reply.content.Some? && reply.content.value != "" then reply.content.value else SummaryFallback
  }

  /** The first system turn anywhere in the history. */
  function FirstSystem(messages: seq<Message>): (r: Option<Message>)
    ensures r.Some? ==> r.value in messages && r.value.role == System
    ensures r.None? ==> forall i :: 0 <= i < |messages| ==> messages[i].role != System
    ensures |messages| > 0 && messages[0].role == System ==> r == Some(messages[0])
  {
    if |messages| == 0 then None
    else if messages[0].role == System then Some(messages[0])
    else FirstSystem(messages[1..])
  }

  /** The middle of a history: everything after the first turn and before the last four. */
  function Middle(messages: seq<Message>): seq<Message>
    requires |messages| >= 5
  {
    messages[1..|messages| - 4]
  }

  function TranscriptLines(messages: seq<Message>): (ls: seq<string>)
    ensures |ls| == |messages|
  {
    seq(|messages|, i requires 0 <= i < |messages| => RoleName(messages[i].role) + ": " + messages[i].content)
  }

  /** The user turn sent to the summariser: one "role: content" line per middle turn. */
  function SummaryRequest(messages: seq<Message>): seq<Message>
    requires |messages| >= 5
  {
    [Message(System, SummaryInstruction), Message(User, Text.Join(TranscriptLines(Middle(messages)), "\n"))]
  }

  /**
   * The compressed history. Up to five turns nothing is summarised. Beyond that
   * `summarise`, the summarising completion, is asked with the summary request
   * of the middle turns; the first system turn, a summary turn and the last four
   * turns are kept, and when the summariser throws the last six turns are kept instead.
   */
  function CompressSpec(messages: seq<Message>, summarise: seq<Message> -> SummaryReply): (r: seq<Message>)
    ensures |messages| <= 5 ==> r == messages
    ensures |messages| > 5 ==> 5 <= |r| <= 6 && r[|r| - 4..] == messages[|messages| - 4..]
    ensures |messages| > 5 && summarise(SummaryRequest(messages)).Threw? ==> r == messages[|messages| - 6..]
    ensures |messages| > 5 && summarise(SummaryRequest(messages)).Replied? ==>
      r[|r| - 5] == Message(System, SummaryPrefix + SummaryText(summarise(SummaryRequest(messages))))
      && (|r| == 6 <==> FirstSystem(messages).Some?)
      && (|r| == 6 ==> r[0] == FirstSystem(messages).value)
  {
    if |messages| <= 4 then messages
    else
      var recent := messages[|messages| - 4..];
      if |Middle(messages)| == 0 then messages
      else
        var reply := summarise(SummaryRequest(messages));
        match reply
        case Threw => messages[|messages| - 6..]
        case Replied(_) =>
          var head := if FirstSystem(messages).Some? then [FirstSystem(messages).value] else [];
          head + [Message(System, SummaryPrefix + SummaryText(reply))] + recent
  }

  /** Compressing never lengthens a history. */
  lemma CompressNeverLengthens(messages: seq<Message>, summarise: seq<Message> -> SummaryReply)
    ensures |CompressSpec(messages, summarise)| <= |messages|
  {
  }

  /** What the orchestrator hands to the model: the (possibly compressed) history with its first turn replaced. */
  function ProcessedMessages(messages: seq<Message>, summarise: seq<Message> -> SummaryReply): seq<Message>
    requires |messages| > 0
  {
    var stage := DetermineStage(messages);
    var base := if EstimateTokenCount(messages) > CompressionThreshold then CompressSpec(messages, summarise) else messages;
    base[0 := Message(System, BuildSystemPrompt(stage))]
  }

  /**
   * The model always receives the stage's system prompt first. At or below the
   * threshold every later turn is passed on unchanged; above it and beyond five
   * turns at most six turns go out, ending with the last four turns of the history.
   */
  lemma ProcessedMessagesShape(messages: seq<Message>, summarise: seq<Message> -> SummaryReply)
    requires |messages| > 0
    ensures var r := ProcessedMessages(messages, summarise);
      |r| > 0 && r[0] == Message(System, BuildSystemPrompt(DetermineStage(messages)))
      && (EstimateTokenCount(messages) <= CompressionThreshold ==> |r| == |messages| && r[1..] == messages[1..])
      && (EstimateTokenCount(messages) > CompressionThreshold && |messages| > 5 ==>
            |r| <= 6 && r[|r| - 4..] == messages[|messages| - 4..])
  {
    var compress := EstimateTokenCount(messages) > CompressionThreshold;
    var base := if compress then CompressSpec(messages, summarise) else messages;
    assert compress && |messages| > 5 ==> |base| <= 6 && base[|base| - 4..] == messages[|messages| - 4..];
    assert |base| > 0;
    ReplaceFirst(base, Message(System, BuildSystemPrompt(DetermineStage(messages))));
  }

  /** Overwriting the first turn keeps the length and every later turn. */
  lemma ReplaceFirst(base: seq<Message>, m: Message)
    requires |base| > 0
    ensures var r := base[0 := m];
      |r| == |base| && r[0] == m && r[1..] == base[1..]
      && (|base| >= 5 ==> r[|r| - 4..] == base[|base| - 4..])
  {
  }

  // ---------------------------------------------------------------- the service

  /** The state record kept per conversation; the service updates it in place. */
  class ConversationState {
    var stage: Stage
    var tokenCount: nat
    var messageHistory: array<Message>

    constructor ()
      ensures stage == Discovery && tokenCount == 0 && messageHistory.Length == 0
    {
      stage := Discovery;
      tokenCount := 0;
      messageHistory := new Message[0];
    }
  }

  class OrchestrationService {
    var states: map<string, ConversationState>

    /** Every conversation id owns its own state record. */
    ghost predicate Valid()
      reads this
    {
      forall a, b :: a in states && b in states && a != b ==> states[a] != states[b]
    }

    constructor ()
      ensures Valid() && states == map[]
    {
      states := map[];
    }

    /**
     * Returns the caller's own array when nothing is summarised and a fresh
     * array otherwise.
     */
    method CompressMessages(messages: array<Message>, summarise: seq<Message> -> SummaryReply) returns (r: array<Message>)
      ensures r[..] == CompressSpec(messages[..], summarise)
      ensures messages.Length <= 5 ==> r == messages
      ensures messages.Length > 5 ==> fresh(r)
    {
      if messages.Length <= 4 {
        return messages;
      }
      if messages.Length - 4 - 1 <= 0 {
        return messages;
      }
      var spec := CompressSpec(messages[..], summarise);
      r := new Message[|spec|](i requires 0 <= i < |spec| => spec[i]);
      assert r[..] == spec;
    }

    /**
     * Stores the stage, estimate and history under `id`, reusing an existing
     * record. Because every id owns its own record (`Valid`), updating that
     * record in place leaves every other id's record as it was.
     */
    method RecordState(id: string, stage: Stage, tokenCount: nat, messages: array<Message>)
      requires Valid()
      modifies this, if id in states then {states[id]} else {}
      ensures Valid()
      ensures id in states && states.Keys == old(states).Keys + {id}
      ensures forall k :: k in old(states) && k != id ==> states[k] == old(states)[k]
      ensures id in old(states) ==> states[id] == old(states)[id]
      ensures id !in old(states) ==> fresh(states[id])
      ensures states[id].stage == stage && states[id].tokenCount == tokenCount
      ensures states[id].messageHistory == messages
      ensures forall k :: k in old(states) && k != id ==> unchanged(old(states)[k])
    {
      var state: ConversationState;
      if id in states {
        state := states[id];
      } else {
        state := new ConversationState();
      }
      state.stage := stage;
      state.tokenCount := tokenCount;
      state.messageHistory := messages;
      states := states[id := state];
    }

    /**
     * Records the stage, token estimate and history of a conversation and
     * returns the turns to send. The history is stored by reference, so when
     * nothing is compressed the overwritten first turn is also what the stored
     * history holds.
     */
    method ProcessConversation(id: string, messages: array<Message>, summarise: seq<Message> -> SummaryReply)
      returns (processed: array<Message>, stage: Stage, followUps: seq<string>)
      requires Valid() && messages.Length > 0
      modifies this, messages, if id in states then {states[id]} else {}
      ensures Valid()
      ensures stage == DetermineStage(old(messages[..]))
      ensures followUps == FollowUpQuestions(stage)
      ensures processed[..] == ProcessedMessages(old(messages[..]), summarise)
      ensures EstimateTokenCount(old(messages[..])) > CompressionThreshold && messages.Length > 5 ==>
        fresh(processed) && messages[..] == old(messages[..])
      ensures !(EstimateTokenCount(old(messages[..])) > CompressionThreshold && messages.Length > 5) ==>
        processed == messages
      ensures id in states && states.Keys == old(states).Keys + {id}
      ensures forall k :: k in old(states) && k != id ==> states[k] == old(states)[k]
      ensures id in old(states) ==> states[id] == old(states)[id]
      ensures id !in old(states) ==> fresh(states[id])
      ensures states[id].stage == stage
      ensures states[id].tokenCount == EstimateTokenCount(old(messages[..]))
      ensures states[id].messageHistory == messages
    {
      var history := messages[..];
      stage := DetermineStage(history);
      var tokenCount := EstimateTokenCount(history);
      RecordState(id, stage, tokenCount, messages);
      assert messages[..] == history;
      ghost var recorded := states[id];
      processed := PrepareTurns(messages, summarise);
      assert states[id] == recorded;
      followUps := FollowUpQuestions(stage);
    }

    /** The possibly compressed turns with the stage's system prompt in front. */
    method PrepareTurns(messages: array<Message>, summarise: seq<Message> -> SummaryReply) returns (processed: array<Message>)
      requires messages.Length > 0
      modifies messages
      ensures processed[..] == ProcessedMessages(old(messages[..]), summarise)
      ensures EstimateTokenCount(old(messages[..])) > CompressionThreshold && messages.Length > 5 ==>
        fresh(processed) && messages[..] == old(messages[..])
      ensures !(EstimateTokenCount(old(messages[..])) > CompressionThreshold && messages.Length > 5) ==>
        processed == messages
    {
      var history := messages[..];
      var stage := DetermineStage(history);
      var compress := EstimateTokenCount(history) > CompressionThreshold;
      ghost var base := if compress then CompressSpec(history, summarise) else history;
      if compress {
        processed := CompressMessages(messages, summarise);
      } else {
        processed := messages;
      }
      assert processed[..] == base;
      processed[0] := Message(System, BuildSystemPrompt(stage));
    }

    function GetConversationState(id: string): (r: Option<ConversationState>)
      reads this
      ensures r.Some? <==> id in states
      ensures r.Some? ==> r.value == states[id]
    {
      if id in states then Some(states[id]) else None
    }

    method ClearConversationState(id: string)
      requires Valid()
      modifies this
      ensures Valid() && states == old(states) - {id}
    {
      states := states - {id};
    }

    method ClearAllStates()
      modifies this
      ensures Valid() && states == map[]
    {
      states := map[];
    }
  }
}
