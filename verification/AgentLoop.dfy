/** Tool budgets of the chat loop (src/tok/adapters/orchestrator.py). */
module AgentLoop {
  import opened Text

  /** A tool call; args is its sorted argument list as text, reply what the executor answers. */
  datatype Call = Call(name: string, args: string, success: bool, reply: string)

  datatype Block = ToolUse(call: Call) | OtherBlock

  /** One model reply, or a failed API call. */
  datatype Reply = Reply(text: string, blocks: seq<Block>) | Failed(error: string)

  function Signature(c: Call): string {
    c.name + ":" + c.args
  }

  predicate Heavy(c: Call) {
    c.name == "run" || c.name == "edit"
  }

  // ---------- The budgets as a state machine over everything that happens ----------

  datatype Event = NewChat | Tool(call: Call) | Chain

  datatype Verdict = Executed | Repeated | NoEntropy | NoCompute

  datatype Config = Config(entropy: int, compute: int)

  datatype State = State(entropy: int, compute: int, lastSig: Option<string>, repeats: nat)

  function Start(cfg: Config): State {
    State(cfg.entropy, cfg.compute, None, 0)
  }

  function CountRepeat(s: State, c: Call): State {
    if s.lastSig == Some(Signature(c)) then s.(repeats := s.repeats + 1)
    else s.(lastSig := Some(Signature(c)), repeats := 1)
  }

  function Judge(s: State, c: Call): Verdict {
    if CountRepeat(s, c).repeats >= 3 then Repeated
    else if s.entropy <= 0 then NoEntropy
    else if Heavy(c) && s.compute <= 0 then NoCompute
    else Executed
  }

  function Step(cfg: Config, s: State, e: Event): State {
    match e
    case NewChat => State(cfg.entropy, s.compute, None, 0)
    case Chain => s.(entropy := s.entropy - 1)
    case Tool(c) =>
      var t := CountRepeat(s, c);
      (match Judge(s, c)
       case Repeated => t.(entropy := s.entropy - 1)
       case Executed => t.(entropy := s.entropy - 1, compute := if Heavy(c) then s.compute - 1 else s.compute)
       case _ => t)
  }

  function Run(cfg: Config, trace: seq<Event>): State {
    if trace == [] then Start(cfg) else Step(cfg, Run(cfg, trace[..|trace| - 1]), trace[|trace| - 1])
  }

  /** Chains happen only while entropy is left. */
  predicate Legal(cfg: Config, trace: seq<Event>) {
    trace == [] ||
    (Legal(cfg, trace[..|trace| - 1])
     && (trace[|trace| - 1].Chain? ==> Run(cfg, trace[..|trace| - 1]).entropy > 0))
  }

  // ---------- The same, read off the history ----------

  /** Signatures of the tool calls of the current chat. */
  function ChatSignatures(trace: seq<Event>): seq<string> {
    if trace == [] then []
    else
      var before := ChatSignatures(trace[..|trace| - 1]);
      match trace[|trace| - 1]
      case NewChat => []
      case Chain => before
      case Tool(c) => before + [Signature(c)]
  }

  /** The last n signatures are all sig. */
  predicate EndsWith(sigs: seq<string>, n: nat, sig: string) {
    n <= |sigs| && forall i :: |sigs| - n <= i < |sigs| ==> sigs[i] == sig
  }

  datatype Tally = Tally(executed: nat, refused: nat, chained: nat, heavy: nat)

  /** What the current chat did, and the run and edit executions of all chats. */
  function Count(cfg: Config, trace: seq<Event>): Tally {
    if trace == [] then Tally(0, 0, 0, 0)
    else
      var before := trace[..|trace| - 1];
      var t := Count(cfg, before);
      match trace[|trace| - 1]
      case NewChat => Tally(0, 0, 0, t.heavy)
      case Chain => t.(chained := t.chained + 1)
      case Tool(c) =>
        match HistoryJudge(cfg, before, t, c)
        case Repeated => t.(refused := t.refused + 1)
        case Executed => t.(executed := t.executed + 1, heavy := if Heavy(c) then t.heavy + 1 else t.heavy)
        case _ => t
  }

  /** Refuse the third of a run of identical calls; otherwise spend what the history has left over. */
  function HistoryJudge(cfg: Config, before: seq<Event>, t: Tally, c: Call): Verdict {
    if EndsWith(ChatSignatures(before), 2, Signature(c)) then Repeated
    else if t.executed + t.refused + t.chained >= cfg.entropy then NoEntropy
    else if Heavy(c) && t.heavy >= cfg.compute then NoCompute
    else Executed
  }

  /** The counters are the run length at the end of the chat so far. */
  predicate RunLength(s: State, sigs: seq<string>) {
    if sigs == [] then s.lastSig == None && s.repeats == 0
    else
      var last := sigs[|sigs| - 1];
      && s.lastSig == Some(last) && 1 <= s.repeats && EndsWith(sigs, s.repeats, last)
      && (s.repeats < |sigs| ==> sigs[|sigs| - 1 - s.repeats] != last)
  }

  lemma RunLengthNext(s: State, sigs: seq<string>, c: Call)
    requires RunLength(s, sigs)
    ensures RunLength(CountRepeat(s, c), sigs + [Signature(c)])
    ensures CountRepeat(s, c).repeats >= 3 <==> EndsWith(sigs, 2, Signature(c))
  {
    var longer, n := sigs + [Signature(c)], |sigs|;
    if n >= 1 {
      assert longer[n - 1] == sigs[n - 1];
      if s.repeats < n {
        assert longer[n - 1 - s.repeats] == sigs[n - 1 - s.repeats];
      }
    }
    if n >= 2 && s.repeats == 1 {
      assert sigs[n - 2] != sigs[n - 1];
    }
  }

  /** Conservation: the counters are what the history says, at every moment of every run. */
  lemma {:induction false} StateIsHistory(cfg: Config, trace: seq<Event>)
    ensures var s, t := Run(cfg, trace), Count(cfg, trace);
            && s.entropy == cfg.entropy - t.executed - t.refused - t.chained
            && s.compute == cfg.compute - t.heavy
            && RunLength(s, ChatSignatures(trace))
  {
    if trace != [] {
      var before, e := trace[..|trace| - 1], trace[|trace| - 1];
      StateIsHistory(cfg, before);
      if e.Tool? {
        RunLengthNext(Run(cfg, before), ChatSignatures(before), e.call);
      }
    }
  }

  /** The verdict on a call is a function of the history alone. */
  lemma VerdictIsHistory(cfg: Config, before: seq<Event>, c: Call)
    ensures Judge(Run(cfg, before), c) == HistoryJudge(cfg, before, Count(cfg, before), c)
  {
    StateIsHistory(cfg, before);
    RunLengthNext(Run(cfg, before), ChatSignatures(before), c);
  }

  /** Never the third in a row: an executed call does not follow two calls of the same signature. */
  lemma NoThirdInARow(cfg: Config, trace: seq<Event>, k: nat)
    requires k < |trace| && trace[k].Tool?
    ensures var sigs := ChatSignatures(trace[..k + 1]);
            && |sigs| >= 1 && sigs[|sigs| - 1] == Signature(trace[k].call)
            && (Judge(Run(cfg, trace[..k]), trace[k].call) == Repeated <==>
                |sigs| >= 3 && sigs[|sigs| - 3] == sigs[|sigs| - 2] == sigs[|sigs| - 1])
  {
    assert trace[..k + 1][..k] == trace[..k];
    VerdictIsHistory(cfg, trace[..k], trace[k].call);
  }

  // ---------- Which calls count as the same ----------

  /** The tool calls of the current chat. */
  function ChatCalls(trace: seq<Event>): seq<Call> {
    if trace == [] then []
    else
      var before := ChatCalls(trace[..|trace| - 1]);
      match trace[|trace| - 1]
      case NewChat => []
      case Chain => before
      case Tool(c) => before + [c]
  }

  lemma {:induction false} SignaturesOfCalls(trace: seq<Event>)
    ensures |ChatSignatures(trace)| == |ChatCalls(trace)|
    ensures forall i :: 0 <= i < |ChatCalls(trace)| ==> ChatSignatures(trace)[i] == Signature(ChatCalls(trace)[i])
  {
    if trace != [] {
      SignaturesOfCalls(trace[..|trace| - 1]);
    }
  }

  /** One call again: the same tool with the same arguments. */
  predicate SameCall(c: Call, d: Call) {
    c.name == d.name && c.args == d.args
  }

  /** Neither name, followed by a colon, starts the other. */
  predicate TellsApart(a: string, b: string) {
    !(a + ":" <= b) && !(b + ":" <= a)
  }

  lemma ColonAt(name: string, args: string)
    ensures (name + ":" + args)[|name|] == ':' && name <= name + ":" + args
    ensures (name + ":" + args)[|name| + 1..] == args
  {
  }

  lemma ShorterNameStarts(a: string, x: string, b: string, y: string)
    requires a + ":" + x == b + ":" + y && |a| < |b|
    ensures a + ":" <= b
  {
    ColonAt(a, x);
    ColonAt(b, y);
    var s := a + ":" + x;
    assert b == s[..|b|] && a + ":" == s[..|a| + 1];
  }

  /** Joined texts tell calls apart, except where one name with a colon starts the other. */
  lemma SignatureTells(c: Call, d: Call)
    requires TellsApart(c.name, d.name)
    ensures Signature(c) == Signature(d) <==> SameCall(c, d)
  {
    if Signature(c) == Signature(d) {
      if |c.name| < |d.name| {
        ShorterNameStarts(c.name, c.args, d.name, d.args);
      } else if |d.name| < |c.name| {
        ShorterNameStarts(d.name, d.args, c.name, c.args);
      } else {
        ColonAt(c.name, c.args);
        ColonAt(d.name, d.args);
        assert c.name == Signature(c)[..|c.name|] && d.name == Signature(d)[..|d.name|];
      }
    }
  }

  lemma ConfusingArguments(a: string, b: string)
    requires a + ":" <= b
    ensures exists x, y :: a + ":" + x == b + ":" + y
  {
    var x := b[|a| + 1..] + ":";
    assert b == a + ":" + b[|a| + 1..];
    assert a + ":" + x == b + ":" + "";
  }

  /** Exactly then: two different tools can be confused for some arguments if and only if one name,
      followed by a colon, starts the other. */
  lemma NamesConfusedIff(a: string, b: string)
    requires a != b
    ensures (exists x, y :: a + ":" + x == b + ":" + y) <==> !TellsApart(a, b)
  {
    if a + ":" <= b {
      ConfusingArguments(a, b);
    } else if b + ":" <= a {
      ConfusingArguments(b, a);
      var x, y :| b + ":" + x == a + ":" + y;
      assert a + ":" + y == b + ":" + x;
    }
    if x, y :| a + ":" + x == b + ":" + y {
      var c, d := Call(a, x, true, ""), Call(b, y, true, "");
      if TellsApart(a, b) {
        SignatureTells(c, d);
      }
    }
  }

  lemma NamesWithoutColon(a: string, b: string)
    requires ':' !in a && ':' !in b
    ensures TellsApart(a, b)
  {
    if a + ":" <= b {
      PrefixHasColon(a, b);
    } else if b + ":" <= a {
      PrefixHasColon(b, a);
    }
  }

  lemma PrefixHasColon(a: string, b: string)
    requires a + ":" <= b
    ensures ':' in b
  {
    assert b[|a|] == ':';
  }

  /** The last two calls of the chat were this one. */
  predicate ThirdInARow(calls: seq<Call>, c: Call) {
    |calls| >= 2 && SameCall(calls[|calls| - 1], c) && SameCall(calls[|calls| - 2], c)
  }

  /** The joined text tells the call from the last two of the chat. */
  predicate ToldApart(calls: seq<Call>, c: Call) {
    |calls| >= 2 ==> TellsApart(calls[|calls| - 1].name, c.name) && TellsApart(calls[|calls| - 2].name, c.name)
  }

  /** A call is refused as a repeat if the last two calls of the chat had its name and its arguments, and
      only then unless a name with a colon is taken for another. */
  lemma RepeatedIffThird(cfg: Config, before: seq<Event>, c: Call)
    ensures ThirdInARow(ChatCalls(before), c) ==> Judge(Run(cfg, before), c) == Repeated
    ensures ToldApart(ChatCalls(before), c) ==>
              (Judge(Run(cfg, before), c) == Repeated <==> ThirdInARow(ChatCalls(before), c))
  {
    var calls, n := ChatCalls(before), |ChatCalls(before)|;
    VerdictIsHistory(cfg, before, c);
    SignaturesOfCalls(before);
    LastTwoMeet(ChatSignatures(before), Signature(c));
    if n >= 2 && ToldApart(calls, c) {
      SignatureTells(calls[n - 1], c);
      SignatureTells(calls[n - 2], c);
    }
  }

  lemma LastTwoMeet(sigs: seq<string>, sig: string)
    ensures EndsWith(sigs, 2, sig) <==> |sigs| >= 2 && sigs[|sigs| - 1] == sig && sigs[|sigs| - 2] == sig
  {
  }

  /** Two tools, and arguments with which the third call is refused although it is the first of its tool. */
  lemma ColonConfuses(cfg: Config, first: Call, other: Call)
    requires first.name == "a" && first.args == "b:x" && other.name == "a:b" && other.args == "x"
    ensures Judge(Run(cfg, [Tool(first), Tool(first)]), other) == Repeated
    ensures !ThirdInARow(ChatCalls([Tool(first), Tool(first)]), other)
  {
    var trace := [Tool(first), Tool(first)];
    assert Signature(first) == "a:b:x" == Signature(other);
    assert trace[..1] == [Tool(first)] && [Tool(first)][..0] == [];
    assert ChatSignatures([Tool(first)]) == [Signature(first)];
    VerdictIsHistory(cfg, trace, other);
    assert ChatCalls([Tool(first)]) == [first] && ChatCalls(trace) == [first, first];
    assert |first.name| != |other.name|;
  }

  function AtLeastZero(n: int): nat {
    if n < 0 then 0 else n
  }

  /** Budgets bound what runs: executions and chains of a chat together, heavy executions of all chats. */
  lemma {:induction false} BudgetsHold(cfg: Config, trace: seq<Event>)
    requires Legal(cfg, trace)
    ensures var t := Count(cfg, trace);
            && t.executed + t.chained <= AtLeastZero(cfg.entropy)
            && t.heavy <= AtLeastZero(cfg.compute)
  {
    if trace != [] {
      BudgetsHold(cfg, trace[..|trace| - 1]);
      StateIsHistory(cfg, trace[..|trace| - 1]);
    }
  }

  /** How often a tool of one of these names was executed, over all chats. */
  function ToolRuns(cfg: Config, trace: seq<Event>, names: set<string>): nat {
    if trace == [] then 0
    else
      var before, e := trace[..|trace| - 1], trace[|trace| - 1];
      ToolRuns(cfg, before, names)
      + if e.Tool? && e.call.name in names && Judge(Run(cfg, before), e.call) == Executed then 1 else 0
  }

  /** Each execution of run or edit costs one unit of compute, and nothing else does: not a refusal,
      not another tool, not a new chat. */
  lemma {:induction false} ComputeIsRunsAndEdits(cfg: Config, trace: seq<Event>)
    ensures Run(cfg, trace).compute == cfg.compute - ToolRuns(cfg, trace, {"run", "edit"})
  {
    if trace != [] {
      ComputeIsRunsAndEdits(cfg, trace[..|trace| - 1]);
    }
  }

  // ---------- The class ----------

  function ToolEvents(blocks: seq<Block>): seq<Event> {
    if blocks == [] then []
    else
      ToolEvents(blocks[..|blocks| - 1])
      + match blocks[|blocks| - 1]
        case ToolUse(c) => [Tool(c)]
        case OtherBlock => []
  }

  function Render(v: Verdict, c: Call): string {
    match v
    case Repeated =>
      "@error type:gluttony\n" + "  msg: Infinite_loop_detected_on_" + c.name + ".\n  fix: Move_to_next_TODO_item."
    case NoEntropy => "[ERROR] Entropy budget exhausted"
    case NoCompute => "[ERROR] Compute budget exhausted"
    case Executed => (if c.success then "[SUCCESS] " else "[ERROR] ") + c.reply
  }

  lemma SecondChar(prefix: string, rest: string, s: string)
    requires s == prefix + rest && |prefix| >= 2
    ensures s[1] == prefix[1] && StartsWith(s, prefix) && IsSuffix(rest, s)
  {
  }

  /** Feedback starts with [SUCCESS] exactly for an executed call that succeeded, and ends with the reply
      of every executed call. */
  lemma FeedbackTellsOutcome(v: Verdict, c: Call)
    ensures StartsWith(Render(v, c), "[SUCCESS] ") <==> v.Executed? && c.success
    ensures v.Executed? ==> IsSuffix(c.reply, Render(v, c))
  {
    var s := Render(v, c);
    if v.Executed? {
      SecondChar(if c.success then "[SUCCESS] " else "[ERROR] ", c.reply, s);
    }
    assert s[1] == if v.Repeated? then 'e' else if v.Executed? && c.success then 'S' else 'E';
  }

  /** The feedback lines for the calls of a reply, given what happened before it. */
  function Feedback(cfg: Config, before: seq<Event>, blocks: seq<Block>): seq<string> {
    if blocks == [] then []
    else
      var rest := blocks[..|blocks| - 1];
      Feedback(cfg, before, rest)
      + match blocks[|blocks| - 1]
        case ToolUse(c) => [Render(Judge(Run(cfg, before + ToolEvents(rest)), c), c)]
        case OtherBlock => []
  }

  lemma {:induction false} FeedbackPerCall(cfg: Config, before: seq<Event>, blocks: seq<Block>)
    ensures |Feedback(cfg, before, blocks)| == |ToolEvents(blocks)|
  {
    if blocks != [] {
      FeedbackPerCall(cfg, before, blocks[..|blocks| - 1]);
    }
  }

  lemma RenderVisible(v: Verdict, c: Call)
    ensures Render(v, c) != "" && !IsSpace(Render(v, c)[0])
  {
    var s := Render(v, c);
    assert s[0] == if v.Repeated? then '@' else '[';
  }

  lemma {:induction false} FeedbackStarts(cfg: Config, before: seq<Event>, blocks: seq<Block>)
    ensures var lines := Feedback(cfg, before, blocks);
            lines != [] ==> lines[0] != "" && !IsSpace(lines[0][0])
  {
    if blocks != [] {
      var rest := blocks[..|blocks| - 1];
      FeedbackStarts(cfg, before, rest);
      if blocks[|blocks| - 1].ToolUse? {
        var c := blocks[|blocks| - 1].call;
        RenderVisible(Judge(Run(cfg, before + ToolEvents(rest)), c), c);
      }
    }
  }

  lemma JoinStarts(lines: seq<string>, sep: string)
    requires lines != [] && lines[0] != "" && !IsSpace(lines[0][0])
    ensures !Blank(Join(lines, sep))
  {
    var s := Join(lines, sep);
    assert |lines| > 1 ==> s == lines[0] + sep + Join(lines[1..], sep);
    assert s[0] == lines[0][0];
  }

  /** The feedback text of a reply, stripped, is empty exactly if the reply calls no tool. */
  lemma FeedbackEmptyIff(cfg: Config, before: seq<Event>, blocks: seq<Block>)
    ensures Trim(Join(Feedback(cfg, before, blocks), "\n")) == "" <==> ToolEvents(blocks) == []
  {
    var lines := Feedback(cfg, before, blocks);
    FeedbackPerCall(cfg, before, blocks);
    TrimIsEmptyIff(Join(lines, "\n"));
    if lines != [] {
      FeedbackStarts(cfg, before, blocks);
      JoinStarts(lines, "\n");
    }
  }

  function ReplyEvents(reply: Reply): seq<Event> {
    match reply
    case Reply(_, blocks) => ToolEvents(blocks)
    case Failed(_) => []
  }

  /** The events of the first n replies of a chat, each followed by a chain. */
  function Rounds(replies: nat -> Reply, n: nat): seq<Event> {
    if n == 0 then [] else Rounds(replies, n - 1) + (ReplyEvents(replies(n - 1)) + [Chain])
  }

  /** The events of a chat of n model calls: the last one is not chained. */
  function ChatEvents(replies: nat -> Reply, n: nat): seq<Event>
    requires n > 0
  {
    Rounds(replies, n - 1) + ReplyEvents(replies(n - 1))
  }

  lemma RoundAdded(start: seq<Event>, before: seq<Event>, after: seq<Event>, replies: nat -> Reply, n: nat)
    requires before == start + Rounds(replies, n) && after == before + (ReplyEvents(replies(n)) + [Chain])
    ensures after == start + Rounds(replies, n + 1)
  {
    ConcatAssociative(start, Rounds(replies, n), ReplyEvents(replies(n)) + [Chain]);
  }

  lemma ChatEnded(start: seq<Event>, before: seq<Event>, after: seq<Event>, replies: nat -> Reply, n: nat)
    requires before == start + Rounds(replies, n) && after == before + ReplyEvents(replies(n))
    ensures after == start + ChatEvents(replies, n + 1)
  {
    ConcatAssociative(start, Rounds(replies, n), ReplyEvents(replies(n)));
  }

  class Orchestrator {
    const initialEntropyBudget: int
    ghost const cfg: Config
    var entropyBudget: int
    var computeBudget: int
    var lastToolSig: Option<string>
    var consecutiveRepeats: nat
    var turnCount: nat
    var pulseCount: nat
    ghost var trace: seq<Event>

    constructor (entropyBudget: Option<int>, computeBudget: Option<int>)
      ensures Valid() && trace == [] && pulseCount == turnCount == 0
      ensures cfg == Config(if entropyBudget.Some? then entropyBudget.value else 40,
                            if computeBudget.Some? then computeBudget.value else 20)
    {
      var e := if entropyBudget.Some? then entropyBudget.value else 40;
      var c := if computeBudget.Some? then computeBudget.value else 20;
      this.entropyBudget, this.computeBudget := e, c;
      initialEntropyBudget := e;
      cfg := Config(e, c);
      lastToolSig, consecutiveRepeats, turnCount, pulseCount, trace := None, 0, 0, 0, [];
    }

    ghost predicate Valid()
      reads this
    {
      && cfg.entropy == initialEntropyBudget && Legal(cfg, trace)
      && Run(cfg, trace) == State(entropyBudget, computeBudget, lastToolSig, consecutiveRepeats)
    }

    ghost method Record(e: Event)
      requires Legal(cfg, trace) && (e.Chain? ==> Run(cfg, trace).entropy > 0)
      modifies this`trace
      ensures trace == old(trace) + [e] && Legal(cfg, trace) && Run(cfg, trace) == Step(cfg, Run(cfg, old(trace)), e)
    {
      assert (trace + [e])[..|trace|] == trace;
      trace := trace + [e];
    }

    method ExecuteTool(c: Call) returns (line: string)
      requires Valid()
      modifies this`entropyBudget, this`computeBudget, this`lastToolSig, this`consecutiveRepeats, this`trace
      ensures Valid() && trace == old(trace) + [Tool(c)]
      ensures line == Render(Judge(Run(cfg, old(trace)), c), c)
      ensures ToldApart(ChatCalls(old(trace)), c) ==>
                (Judge(Run(cfg, old(trace)), c) == Repeated <==> ThirdInARow(ChatCalls(old(trace)), c))
      ensures entropyBudget <= old(entropyBudget)
    {
      RepeatedIffThird(cfg, trace, c);
      Record(Tool(c));
      var sig := Signature(c);
      if lastToolSig == Some(sig) {
        consecutiveRepeats := consecutiveRepeats + 1;
      } else {
        lastToolSig := Some(sig);
        consecutiveRepeats := 1;
      }
      if consecutiveRepeats >= 3 {
        entropyBudget := entropyBudget - 1;
        return Render(Repeated, c);
      }
      if entropyBudget <= 0 {
        return Render(NoEntropy, c);
      }
      if Heavy(c) && computeBudget <= 0 {
        return Render(NoCompute, c);
      }
      entropyBudget := entropyBudget - 1;
      if Heavy(c) {
        computeBudget := computeBudget - 1;
      }
      return Render(Executed, c);
    }

    method ExecuteToolBlocks(blocks: seq<Block>) returns (toolResults: seq<string>)
      requires Valid()
      modifies this`entropyBudget, this`computeBudget, this`lastToolSig, this`consecutiveRepeats, this`trace
      ensures Valid() && trace == old(trace) + ToolEvents(blocks)
      ensures toolResults == Feedback(cfg, old(trace), blocks)
      ensures entropyBudget <= old(entropyBudget)
    {
      toolResults := [];
      for i := 0 to |blocks|
        invariant Valid() && trace == old(trace) + ToolEvents(blocks[..i])
        invariant toolResults == Feedback(cfg, old(trace), blocks[..i])
        invariant entropyBudget <= old(entropyBudget)
      {
        assert blocks[..i + 1][..i] == blocks[..i];
        if blocks[i].OtherBlock? {
          continue;
        }
        var line := ExecuteTool(blocks[i].call);
        toolResults := toolResults + [line];
      }
      assert blocks[..|blocks|] == blocks;
    }

    /** blocks are the tool blocks the feedback is about. */
    method ShouldChain(toolFeedback: string, ghost before: seq<Event>, ghost blocks: seq<Block>) returns (chain: bool)
      requires toolFeedback == Trim(Join(Feedback(cfg, before, blocks), "\n"))
      ensures chain <==> ToolEvents(blocks) != [] && entropyBudget > 0
    {
      FeedbackEmptyIff(cfg, before, blocks);
      return toolFeedback != "" && entropyBudget > 0;
    }

    method ChainToolFeedback()
      requires Valid() && entropyBudget > 0
      modifies this`turnCount, this`entropyBudget, this`trace
      ensures Valid() && trace == old(trace) + [Chain] && turnCount == old(turnCount) + 1
      ensures entropyBudget == old(entropyBudget) - 1
    {
      Record(Chain);
      turnCount := turnCount + 1;
      entropyBudget := entropyBudget - 1;
    }

    /** One turn: None if the tools' feedback goes back to the model, otherwise the answer. */
    method Turn(reply: Reply) returns (answer: Option<string>)
      requires Valid()
      modifies this
      ensures Valid()
      ensures answer == None ==>
                && reply.Reply? && ReplyEvents(reply) != [] && trace == old(trace) + (ReplyEvents(reply) + [Chain])
                && AtLeastZero(entropyBudget) < AtLeastZero(old(entropyBudget))
                && turnCount == old(turnCount) + 1 && pulseCount == old(pulseCount) + 1
      ensures answer != None ==> trace == old(trace) + ReplyEvents(reply) && Ends(reply, answer.value, old(pulseCount))
                                 && turnCount == old(turnCount)
    {
      if reply.Failed? {
        return Some("[ERROR] API failed: " + reply.error);
      }
      pulseCount := pulseCount + 1;
      var toolResults := ExecuteToolBlocks(reply.blocks);
      var toolFeedback := Trim(Join(toolResults, "\n"));
      var chained := ShouldChain(toolFeedback, old(trace), reply.blocks);
      if chained {
        ChainToolFeedback();
        ConcatAssociative(old(trace), ToolEvents(reply.blocks), [Chain]);
        return None;
      }
      return Some(reply.text);
    }

    /** How a chat ends: a failed call, a reply without tool calls, or no entropy left. */
    ghost predicate Ends(reply: Reply, answer: string, pulses: nat)
      reads this
    {
      match reply
      case Failed(e) => answer == "[ERROR] API failed: " + e && pulseCount == pulses
      case Reply(text, _) =>
        answer == text && pulseCount == pulses + 1 && (ReplyEvents(reply) == [] || entropyBudget <= 0)
    }

    method BeginChat()
      requires Valid()
      modifies this`entropyBudget, this`consecutiveRepeats, this`lastToolSig, this`trace
      ensures Valid() && trace == old(trace) + [NewChat] && entropyBudget == cfg.entropy
    {
      Record(NewChat);
      entropyBudget, consecutiveRepeats, lastToolSig := initialEntropyBudget, 0, None;
    }

    /** Turn n of a chat whose events started after start. */
    method ChatTurn(replies: nat -> Reply, n: nat, ghost start: seq<Event>) returns (answer: Option<string>)
      requires Valid() && trace == start + Rounds(replies, n)
      modifies this
      ensures Valid()
      ensures answer == None ==>
                && trace == start + Rounds(replies, n + 1) && AtLeastZero(entropyBudget) < AtLeastZero(old(entropyBudget))
                && turnCount == old(turnCount) + 1 && pulseCount == old(pulseCount) + 1
      ensures answer != None ==>
                && trace == start + ChatEvents(replies, n + 1) && Ends(replies(n), answer.value, old(pulseCount))
                && turnCount == old(turnCount)
    {
      answer := Turn(replies(n));
      if answer == None {
        RoundAdded(start, old(trace), trace, replies, n);
      } else {
        ChatEnded(start, old(trace), trace, replies, n);
      }
    }

    /** One chat; replies(n) is what the model answers to call n. Every call but the last is chained;
        the last one fails, has no tool block, or finds no entropy left. */
    method Chat(replies: nat -> Reply) returns (answer: string, modelCalls: nat)
      requires Valid()
      modifies this
      ensures Valid() && 1 <= modelCalls <= AtLeastZero(cfg.entropy) + 1
      ensures trace == old(trace) + [NewChat] + ChatEvents(replies, modelCalls)
      ensures Ends(replies(modelCalls - 1), answer, old(pulseCount) + modelCalls - 1)
      ensures turnCount == old(turnCount) + modelCalls - 1
    {
      BeginChat();
      modelCalls := 0;
      ghost var started := trace;
      while true
        invariant started == old(trace) + [NewChat]
        invariant Valid() && trace == started + Rounds(replies, modelCalls)
        invariant modelCalls + AtLeastZero(entropyBudget) <= AtLeastZero(cfg.entropy)
        invariant turnCount == old(turnCount) + modelCalls && pulseCount == old(pulseCount) + modelCalls
        decreases AtLeastZero(entropyBudget)
      {
        var final := ChatTurn(replies, modelCalls, started);
        modelCalls := modelCalls + 1;
        if final.Some? {
          answer := final.value;
          return;
        }
      }
    }
  }
}
