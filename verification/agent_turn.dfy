/**
 One agent turn (app/agent/graph.py): StickyFallback walks the model chain step by step,
 `stream_agent` turns the model's events into client events, and a client keeps what it is
 shown. The provider is a script: attempt k is what the k-th model call of the turn meets,
 so a statement over every script is a statement over every pattern of failures.
 */
module AgentTurn {
  import opened Common
  import opened LlmStream

  // --- Message content -----------------------------------------------------------------

  datatype Block = Plain(text: string) | TextBlock(text: string) | ThinkingBlock(thought: string) | OtherBlock

  datatype Content = Str(s: string) | Blocks(blocks: seq<Block>)

  function TextOf(b: Block): string {
    match b
    case Plain(t) => t
    case TextBlock(t) => t
    case _ => ""
  }

  function ThoughtOf(b: Block): string {
    match b
    case ThinkingBlock(t) => t
    case _ => ""
  }

  function Texts(blocks: seq<Block>): string {
    if blocks == [] then "" else Texts(blocks[..|blocks| - 1]) + TextOf(blocks[|blocks| - 1])
  }

  function Thoughts(blocks: seq<Block>): string {
    if blocks == [] then "" else Thoughts(blocks[..|blocks| - 1]) + ThoughtOf(blocks[|blocks| - 1])
  }

  function ChunkText(c: Content): string {
    if c.Str? then c.s else Texts(c.blocks)
  }

  function ChunkThinking(c: Content): string {
    if c.Str? then "" else Thoughts(c.blocks)
  }

  /** `_content_to_text`: the thinking blocks stand in only when there is no text at all. */
  function ContentText(c: Content): string {
    if c.Str? then c.s else if Texts(c.blocks) != "" then Texts(c.blocks) else Thoughts(c.blocks)
  }

  method ContentToText(c: Content) returns (text: string)
    ensures text == ContentText(c)
  {
    if c.Str? {
      return c.s;
    }
    var texts, thoughts := "", "";
    for i := 0 to |c.blocks|
      invariant texts == Texts(c.blocks[..i]) && thoughts == Thoughts(c.blocks[..i])
    {
      assert c.blocks[..i + 1][..i] == c.blocks[..i];
      match c.blocks[i]
      case Plain(t) => texts := texts + t;
      case TextBlock(t) => texts := texts + t;
      case ThinkingBlock(t) => thoughts := thoughts + t;
      case OtherBlock =>
    }
    assert c.blocks[..|c.blocks|] == c.blocks;
    text := if texts != "" then texts else thoughts;
  }

  // --- Where a step starts -------------------------------------------------------------

  /** A message of the list; an AIMessage may carry the chain position that answered it. */
  datatype Message = Human | Ai(answeredAt: Option<nat>) | OtherMessage

  function StartAt(messages: seq<Message>): nat {
    if messages == [] then 0
    else match messages[|messages| - 1] {
           case Human => 0
           case Ai(p) => p.GetOr(0)
           case OtherMessage => StartAt(messages[..|messages| - 1])
         }
  }

  method PositionToStartAt(messages: seq<Message>) returns (p: nat)
    ensures p == StartAt(messages)
  {
    var i := |messages|;
    assert messages[..i] == messages;
    while i > 0
      invariant 0 <= i <= |messages|
      invariant StartAt(messages) == StartAt(messages[..i])
    {
      i := i - 1;
      assert messages[..i + 1][..i] == messages[..i];
      match messages[i]
      case Human => return 0;
      case Ai(at) => return at.GetOr(0);
      case OtherMessage =>
    }
    return 0;
  }

  lemma {:induction false} StartSkipsToolMessages(messages: seq<Message>, tools: nat)
    ensures StartAt(messages + seq(tools, _ => OtherMessage)) == StartAt(messages)
  {
    var all := messages + seq(tools, _ => OtherMessage);
    if tools == 0 {
      assert all == messages;
    } else {
      assert all[..|all| - 1] == messages + seq(tools - 1, _ => OtherMessage);
      StartSkipsToolMessages(messages, tools - 1);
    }
  }

  // --- One step: walking the chain -----------------------------------------------------

  datatype ToolRun = ToolRun(name: string, confident: bool, results: seq<string>)

  datatype Msg = Msg(content: Content, toolCalls: seq<ToolRun>)

  datatype Attempt = Attempt(provided: Provided<Content>, msg: Msg)

  datatype Call = Call(position: nat, chunks: seq<Content>, error: Option<Failure>, msg: Msg)

  datatype StepEnd = Answered(position: nat, msg: Msg) | Raised(e: Failure) | Unfinished

  datatype StepRun = StepRun(calls: seq<Call>, end: StepEnd, rest: seq<Attempt>)

  ghost function CallAt(position: nat, a: Attempt, deadline: Option<real>): Call {
    var s := CallOf(a.provided, deadline);
    Call(position, s.chunks, s.failure, a.msg)
  }

  /** The step from `position` on; the first handled error is the one re-raised when the chain runs out. */
  ghost function Walk(script: seq<Attempt>, deadline: Option<real>, position: nat, n: nat, first: Option<Failure>)
      : StepRun
    decreases n - position
  {
    if position >= n then StepRun([], Raised(first.GetOr(OTHER)), script)
    else if script == [] then StepRun([], Unfinished, [])
    else
      var call := CallAt(position, script[0], deadline);
      if call.error.None? then StepRun([call], Answered(position, call.msg), script[1..])
      else if !Handled(call.error.value) then StepRun([call], Raised(call.error.value), script[1..])
      else
        var later := Walk(script[1..], deadline, position + 1, n, if first.Some? then first else call.error);
        After([call], later)
  }

  function After(calls: seq<Call>, w: StepRun): StepRun {
    w.(calls := calls + w.calls)
  }

  lemma WalkOneCall(calls: seq<Call>, script: seq<Attempt>, deadline: Option<real>, position: nat, n: nat,
      first: Option<Failure>)
    requires position < n && script != []
    ensures var call := CallAt(position, script[0], deadline);
            After(calls, Walk(script, deadline, position, n, first)) ==
            if call.error.None? then StepRun(calls + [call], Answered(position, call.msg), script[1..])
            else if !Handled(call.error.value) then StepRun(calls + [call], Raised(call.error.value), script[1..])
            else After(calls + [call],
                       Walk(script[1..], deadline, position + 1, n, if first.Some? then first else call.error))
  {
    var call := CallAt(position, script[0], deadline);
    var later := Walk(script[1..], deadline, position + 1, n, if first.Some? then first else call.error);
    assert calls + ([call] + later.calls) == (calls + [call]) + later.calls;
  }

  /** StickyFallback.awrap_model_call over a chain of `n` models. */
  method AwrapModelCall(messages: seq<Message>, script: seq<Attempt>, deadline: Option<real>, n: nat)
    returns (run: StepRun)
    ensures run == Walk(script, deadline, StartAt(messages), n, None)
  {
    var position := PositionToStartAt(messages);
    var first: Option<Failure> := None;
    var calls, rest := [], script;
    ghost var whole := Walk(script, deadline, position, n, None);
    while position < n
      invariant whole == After(calls, Walk(rest, deadline, position, n, first))
      decreases n - position
    {
      if rest == [] {
        return StepRun(calls, Unfinished, []);
      }
      var streamed := AStream(rest[0].provided, deadline);
      var call := Call(position, streamed.chunks, streamed.failure, rest[0].msg);
      WalkOneCall(calls, rest, deadline, position, n, first);
      calls, rest := calls + [call], rest[1..];
      if call.error.None? {
        return StepRun(calls, Answered(position, call.msg), rest);
      }
      if !Handled(call.error.value) {
        return StepRun(calls, Raised(call.error.value), rest);
      }
      first := if first.Some? then first else call.error;
      position := position + 1;
    }
    run := StepRun(calls, Raised(first.GetOr(OTHER)), rest);
  }

  // --- A whole turn --------------------------------------------------------------------

  datatype Event =
    | ModelStart
    | ModelStream(content: Content)
    | ModelEnd(msg: Msg)
    | ModelError
    | ToolStart(name: string)
    | ToolEnd(run: ToolRun)

  datatype TurnEnd = Replied(msg: Msg) | Failed(e: Failure) | Cut

  datatype TurnRun = TurnRun(events: seq<Event>, calls: seq<Call>, end: TurnEnd)

  function ChunkEvents(chunks: seq<Content>): seq<Event> {
    if chunks == [] then [] else [ModelStream(chunks[0])] + ChunkEvents(chunks[1..])
  }

  function CallEvents(c: Call): seq<Event> {
    [ModelStart] + ChunkEvents(c.chunks) + [if c.error.None? then ModelEnd(c.msg) else ModelError]
  }

  function CallsEvents(calls: seq<Call>): seq<Event> {
    if calls == [] then [] else CallEvents(calls[0]) + CallsEvents(calls[1..])
  }

  function ToolEvents(runs: seq<ToolRun>): seq<Event> {
    if runs == [] then [] else [ToolStart(runs[0].name)] + ([ToolEnd(runs[0])] + ToolEvents(runs[1..]))
  }

  lemma WalkUsesTheScript(script: seq<Attempt>, deadline: Option<real>, position: nat, n: nat, first: Option<Failure>)
    ensures var w := Walk(script, deadline, position, n, first);
            |w.rest| <= |script| && (w.end.Answered? ==> |w.rest| < |script|)
    decreases n - position
  {
  }

  /** The agent loop: call the model, run the tools it asks for, and stop at a reply without tool calls. */
  ghost function Turn(messages: seq<Message>, script: seq<Attempt>, deadline: Option<real>, n: nat): TurnRun
    decreases |script|
  {
    var step := Walk(script, deadline, StartAt(messages), n, None);
    WalkUsesTheScript(script, deadline, StartAt(messages), n, None);
    var events := CallsEvents(step.calls);
    match step.end
    case Raised(e) => TurnRun(events, step.calls, Failed(e))
    case Unfinished => TurnRun(events, step.calls, Cut)
    case Answered(p, m) =>
      if m.toolCalls == [] then TurnRun(events, step.calls, Replied(m))
      else
        var rest := Turn(AfterStep(messages, p, m, n), step.rest, deadline, n);
        TurnRun(events + ToolEvents(m.toolCalls) + rest.events, step.calls + rest.calls, rest.end)
  }

  /** A chain of one model is called directly and leaves no position on its message. */
  function AfterStep(messages: seq<Message>, p: nat, m: Msg, n: nat): seq<Message> {
    messages + [Ai(if n > 1 then Some(p) else None)] + seq(|m.toolCalls|, _ => OtherMessage)
  }

  // --- Fallback order and cost ---------------------------------------------------------

  /** Where the chain stands after one more call: an answer keeps the model, a failure moves to the next. */
  function Next(c: Call, position: nat): nat {
    if c.error.None? then position else position + 1
  }

  /** Each call is made exactly where the call before it left the chain, and in range. */
  ghost predicate Sticky(calls: seq<Call>, position: nat, n: nat) {
    calls == [] ||
    (calls[0].position == position < n && Sticky(calls[1..], Next(calls[0], position), n))
  }

  function Leaves(calls: seq<Call>, position: nat): nat
    decreases |calls|
  {
    if calls == [] then position else Leaves(calls[1..], Next(calls[0], position))
  }

  function AnswersIn(calls: seq<Call>): nat {
    if calls == [] then 0 else AnswersIn(calls[1..]) + if calls[0].error.None? then 1 else 0
  }

  /** Every call is paid for by an answer or by a move down the chain. */
  lemma {:induction false} StickyCost(calls: seq<Call>, position: nat, n: nat)
    requires Sticky(calls, position, n) && position <= n
    ensures |calls| == AnswersIn(calls) + (Leaves(calls, position) - position)
    ensures position <= Leaves(calls, position) <= n
    ensures forall i :: 0 <= i < |calls| ==> position <= calls[i].position < n
    decreases |calls|
  {
    if calls == [] {
    } else {
      StickyCost(calls[1..], Next(calls[0], position), n);
      assert forall i :: 0 < i < |calls| ==> calls[i] == calls[1..][i - 1];
    }
  }

  lemma {:induction false} StickyNeverGoesBack(calls: seq<Call>, position: nat, n: nat, i: nat, j: nat)
    requires Sticky(calls, position, n) && position <= n && i <= j < |calls|
    ensures calls[i].position <= calls[j].position
    decreases |calls|
  {
    if i == 0 {
      StickyCost(calls, position, n);
    } else {
      StickyNeverGoesBack(calls[1..], Next(calls[0], position), n, i - 1, j - 1);
    }
  }

  lemma {:induction false} LastCallLeavesTheChain(calls: seq<Call>, position: nat, n: nat)
    requires Sticky(calls, position, n) && calls != []
    ensures Leaves(calls, position) == Next(calls[|calls| - 1], calls[|calls| - 1].position)
    decreases |calls|
  {
    if |calls| > 1 {
      LastCallLeavesTheChain(calls[1..], Next(calls[0], position), n);
    }
  }

  lemma {:induction false} StickyJoin(a: seq<Call>, b: seq<Call>, position: nat, n: nat)
    requires Sticky(a, position, n) && Sticky(b, Leaves(a, position), n)
    ensures Sticky(a + b, position, n)
    ensures Leaves(a + b, position) == Leaves(b, Leaves(a, position))
    decreases |a|
  {
    if a == [] {
      assert a + b == b;
    } else {
      assert (a + b)[1..] == a[1..] + b;
      StickyJoin(a[1..], b, Next(a[0], position), n);
    }
  }

  ghost predicate EndsWithAnswer(calls: seq<Call>, m: Msg) {
    calls != [] && calls[|calls| - 1].error.None? && calls[|calls| - 1].msg == m
  }

  lemma StickyCons(c: Call, rest: seq<Call>, position: nat, n: nat)
    ensures Sticky([c] + rest, position, n) <==> c.position == position < n && Sticky(rest, Next(c, position), n)
    ensures Leaves([c] + rest, position) == Leaves(rest, Next(c, position))
    ensures forall m :: EndsWithAnswer(rest, m) ==> EndsWithAnswer([c] + rest, m)
    ensures CallsEvents([c] + rest) == CallEvents(c) + CallsEvents(rest)
  {
    assert ([c] + rest)[1..] == rest;
  }

  lemma StickyOne(c: Call, n: nat)
    requires c.position < n
    ensures Sticky([c], c.position, n) && Leaves([c], c.position) == Next(c, c.position)
  {
    assert [c][1..] == [];
  }

  lemma {:induction false} WalkIsSticky(script: seq<Attempt>, deadline: Option<real>, position: nat, n: nat,
      first: Option<Failure>)
    ensures var w := Walk(script, deadline, position, n, first);
            && Sticky(w.calls, position, n)
            && (w.end.Answered? ==> EndsWithAnswer(w.calls, w.end.msg)
                                    && Leaves(w.calls, position) == w.end.position < n)
    decreases n - position
  {
    if position < n && script != [] {
      var call := CallAt(position, script[0], deadline);
      if call.error.Some? && Handled(call.error.value) {
        var first' := if first.Some? then first else call.error;
        var later := Walk(script[1..], deadline, position + 1, n, first');
        assert Walk(script, deadline, position, n, first) == StepRun([call] + later.calls, later.end, later.rest);
        WalkIsSticky(script[1..], deadline, position + 1, n, first');
        StickyCons(call, later.calls, position, n);
      } else {
        StickyOne(call, n);
      }
    }
  }

  lemma StepEndsWhereTheNextBegins(messages: seq<Message>, p: nat, m: Msg, n: nat)
    requires p < n
    ensures StartAt(AfterStep(messages, p, m, n)) == p
  {
    StartSkipsToolMessages(messages + [Ai(if n > 1 then Some(p) else None)], |m.toolCalls|);
  }

  /** The rule of one step holds across the steps of the turn. */
  lemma {:induction false} TurnIsSticky(messages: seq<Message>, script: seq<Attempt>, deadline: Option<real>, n: nat)
    requires StartAt(messages) < n
    ensures var t := Turn(messages, script, deadline, n);
            && Sticky(t.calls, StartAt(messages), n)
            && (t.end.Replied? ==> EndsWithAnswer(t.calls, t.end.msg) && Leaves(t.calls, StartAt(messages)) < n)
    decreases |script|
  {
    var start := StartAt(messages);
    var step := Walk(script, deadline, start, n, None);
    WalkUsesTheScript(script, deadline, start, n, None);
    WalkIsSticky(script, deadline, start, n, None);
    if step.end.Answered? && step.end.msg.toolCalls != [] {
      var after := AfterStep(messages, step.end.position, step.end.msg, n);
      StepEndsWhereTheNextBegins(messages, step.end.position, step.end.msg, n);
      TurnIsSticky(after, step.rest, deadline, n);
      StickyJoin(step.calls, Turn(after, step.rest, deadline, n).calls, start, n);
    }
  }

  /**
   A turn begins at a human message. Whatever fails, the chain position never goes back,
   every start is in range, and S answered steps over n models cost at most S + n - 1 calls
   when the turn replied and at most S + n when its last step raised.
   */
  lemma TurnCost(messages: seq<Message>, script: seq<Attempt>, deadline: Option<real>, n: nat)
    requires n > 0
    ensures var t := Turn(messages + [Human], script, deadline, n);
            && (forall i, j :: 0 <= i <= j < |t.calls| ==> t.calls[i].position <= t.calls[j].position < n)
            && (t.end.Replied? ==> |t.calls| <= AnswersIn(t.calls) + n - 1)
            && |t.calls| <= AnswersIn(t.calls) + n
            && |t.calls| == AnswersIn(t.calls) + Leaves(t.calls, 0)
  {
    var calls := Turn(messages + [Human], script, deadline, n).calls;
    TurnIsSticky(messages + [Human], script, deadline, n);
    StickyCost(calls, 0, n);
    forall i, j | 0 <= i <= j < |calls|
      ensures calls[i].position <= calls[j].position
    {
      StickyNeverGoesBack(calls, 0, n, i, j);
    }
  }

  /** A second turn starts at the primary again, whichever backup the first one ended on. */
  lemma NewTurnStartsAtThePrimary(earlier: seq<Message>)
    ensures StartAt(earlier + [Human]) == 0
  {
  }

  // --- What the client sees ------------------------------------------------------------

  datatype ClientEvent =
    | Token(text: string)
    | Thinking(thought: string)
    | TurnReset
    | ToolNotice(name: string)
    | Final(reply: string, results: Option<seq<string>>)

  datatype Stream = Stream(turnText: string, reply: string, results: Option<seq<string>>, out: seq<ClientEvent>)

  const SEARCH_LAPTOPS: string := "search_laptops"

  function OnEvent(s: Stream, e: Event): Stream {
    match e
    case ModelStart => s.(turnText := "")
    case ModelStream(c) =>
      var s1 := if ChunkThinking(c) != "" then s.(out := s.out + [Thinking(ChunkThinking(c))]) else s;
      if ChunkText(c) != ""
      then s1.(turnText := s1.turnText + ChunkText(c), out := s1.out + [Token(ChunkText(c))])
      else s1
    case ModelEnd(m) =>
      if m.toolCalls != [] then (if s.turnText != "" then s.(out := s.out + [TurnReset]) else s)
      else s.(reply := if s.turnText != "" then s.turnText else ContentText(m.content))
    case ModelError => s
    case ToolStart(name) => s.(out := s.out + [ToolNotice(name)])
    case ToolEnd(run) =>
      if run.name != SEARCH_LAPTOPS then s
      else s.(results := if run.confident && run.results != [] then Some(run.results) else None)
  }

  function OnEvents(s: Stream, events: seq<Event>): Stream
    decreases |events|
  {
    if events == [] then s else OnEvents(OnEvent(s, events[0]), events[1..])
  }

  const NothingYet := Stream("", "", None, [])

  /** Everything `stream_agent` yields; when its event source raises, it ends without a `final`. */
  function Emitted(events: seq<Event>, raised: bool): seq<ClientEvent> {
    var s := OnEvents(NothingYet, events);
    if raised then s.out else s.out + [Final(s.reply, s.results)]
  }

  method StreamAgent(events: seq<Event>, raised: bool) returns (out: seq<ClientEvent>)
    ensures out == Emitted(events, raised)
  {
    var turnText, finalReply := "", "";
    var searchResults: Option<seq<string>> := None;
    out := [];
    ghost var end := OnEvents(NothingYet, events);
    for i := 0 to |events|
      invariant end == OnEvents(Stream(turnText, finalReply, searchResults, out), events[i..])
    {
      assert events[i..][1..] == events[i + 1..];
      match events[i]
      case ModelStart =>
        turnText := "";
      case ModelStream(c) =>
        var thinking, text := ChunkThinking(c), ChunkText(c);
        if thinking != "" {
          out := out + [Thinking(thinking)];
        }
        if text != "" {
          turnText := turnText + text;
          out := out + [Token(text)];
        }
      case ModelEnd(m) =>
        if m.toolCalls != [] {
          if turnText != "" {
            out := out + [TurnReset];
          }
        } else if turnText != "" {
          finalReply := turnText;
        } else {
          finalReply := ContentToText(m.content);
        }
      case ModelError =>
      case ToolStart(name) =>
        out := out + [ToolNotice(name)];
      case ToolEnd(run) =>
        if run.name == SEARCH_LAPTOPS {
          searchResults := if run.confident && run.results != [] then Some(run.results) else None;
        }
    }
    if !raised {
      out := out + [Final(finalReply, searchResults)];
    }
  }

  /** A client that appends every token and clears on every turn_reset. */
  function Screen(out: seq<ClientEvent>): string {
    if out == [] then ""
    else match out[|out| - 1] {
           case Token(t) => Screen(out[..|out| - 1]) + t
           case TurnReset => ""
           case _ => Screen(out[..|out| - 1])
         }
  }

  function Appended(text: string, more: string): string {
    if more == "" then text else text + more
  }

  /** The text with that of the chunks appended, one by one. */
  function StreamedInto(text: string, chunks: seq<Content>): string
    decreases |chunks|
  {
    if chunks == [] then text else StreamedInto(Appended(text, ChunkText(chunks[0])), chunks[1..])
  }

  function StreamedText(chunks: seq<Content>): string {
    StreamedInto("", chunks)
  }

  lemma EventsCons(s: Stream, e: Event, rest: seq<Event>)
    ensures OnEvents(s, [e] + rest) == OnEvents(OnEvent(s, e), rest)
  {
    assert ([e] + rest)[1..] == rest;
  }

  lemma {:induction false} EventsCompose(s: Stream, a: seq<Event>, b: seq<Event>)
    ensures OnEvents(s, a + b) == OnEvents(OnEvents(s, a), b)
    decreases |a|
  {
    if a == [] {
      assert a + b == b;
    } else {
      assert (a + b)[1..] == a[1..] + b;
      EventsCompose(OnEvent(s, a[0]), a[1..], b);
    }
  }

  lemma ScreenOfMore(out: seq<ClientEvent>, e: ClientEvent)
    ensures Screen(out + [e]) ==
            if e.Token? then Screen(out) + e.text else if e.TurnReset? then "" else Screen(out)
  {
    assert (out + [e])[..|out|] == out;
  }

  /** One chunk's text goes to the turn's text and to the screen; its thinking goes to neither. */
  lemma ChunkReachesTheScreen(s: Stream, c: Content, e: Stream)
    requires e == OnEvent(s, ModelStream(c))
    ensures e.turnText == Appended(s.turnText, ChunkText(c))
    ensures Screen(e.out) == Appended(Screen(s.out), ChunkText(c))
  {
    var s1 := if ChunkThinking(c) != "" then s.(out := s.out + [Thinking(ChunkThinking(c))]) else s;
    ScreenOfMore(s.out, Thinking(ChunkThinking(c)));
    ScreenOfMore(s1.out, Token(ChunkText(c)));
  }

  lemma {:induction false} ChunksReachTheScreen(s: Stream, chunks: seq<Content>)
    ensures var e := OnEvents(s, ChunkEvents(chunks));
            && e.turnText == StreamedInto(s.turnText, chunks)
            && Screen(e.out) == StreamedInto(Screen(s.out), chunks)
    decreases |chunks|
  {
    if chunks == [] {
    } else {
      var s1 := OnEvent(s, ModelStream(chunks[0]));
      ChunkReachesTheScreen(s, chunks[0], s1);
      ChunksReachTheScreen(s1, chunks[1..]);
      EventsCons(s, ModelStream(chunks[0]), ChunkEvents(chunks[1..]));
    }
  }

  lemma CallOnScreen(s: Stream, c: Call)
    requires Screen(s.out) == ""
    ensures var e := OnEvents(s, CallEvents(c));
            && (c.error.Some? && c.chunks == [] ==> Screen(e.out) == "")
            && (c.error.None? && c.msg.toolCalls != [] ==> Screen(e.out) == "")
            && (c.error.None? && c.msg.toolCalls == [] ==> Shows(e, [c], c.msg))
  {
    var last := [if c.error.None? then ModelEnd(c.msg) else ModelError];
    var s1 := OnEvent(s, ModelStart);
    var s2 := OnEvents(s1, ChunkEvents(c.chunks));
    ChunksReachTheScreen(s1, c.chunks);
    EventsCompose(s, [ModelStart], ChunkEvents(c.chunks));
    EventsCompose(s, [ModelStart] + ChunkEvents(c.chunks), last);
    assert OnEvents(s, [ModelStart]) == OnEvents(s1, []) == s1;
    assert OnEvents(s2, last) == OnEvents(OnEvent(s2, last[0]), []);
  }

  /** The screen shows the last call's text, and the reply is that text, or `m`'s own when it streamed none. */
  ghost predicate Shows(e: Stream, calls: seq<Call>, m: Msg) {
    && EndsWithAnswer(calls, m)
    && var text := StreamedText(calls[|calls| - 1].chunks);
       Screen(e.out) == text && e.reply == if text != "" then text else ContentText(m.content)
  }

  lemma {:induction false} StepOnScreen(script: seq<Attempt>, deadline: Option<real>, position: nat, n: nat,
      first: Option<Failure>, s: Stream)
    requires Screen(s.out) == ""
    ensures var w := Walk(script, deadline, position, n, first);
            var e := OnEvents(s, CallsEvents(w.calls));
            w.end.Answered? ==>
              if w.end.msg.toolCalls == [] then Shows(e, w.calls, w.end.msg) else Screen(e.out) == ""
    decreases n - position
  {
    if Walk(script, deadline, position, n, first).end.Answered? {
      var call := CallAt(position, script[0], deadline);
      CallOnScreen(s, call);
      var s1 := OnEvents(s, CallEvents(call));
      if call.error.None? {
        assert [call][1..] == [];
        assert CallsEvents([call]) == CallEvents(call) + [] == CallEvents(call);
      } else {
        FallsBackExactlyWhenNothingWasShown(script[0].provided, deadline);
        var first' := if first.Some? then first else call.error;
        var later := Walk(script[1..], deadline, position + 1, n, first');
        StepOnScreen(script[1..], deadline, position + 1, n, first', s1);
        StickyCons(call, later.calls, position, n);
        EventsCompose(s, CallEvents(call), CallsEvents(later.calls));
      }
    }
  }

  lemma {:induction false} ToolsLeaveTheScreen(s: Stream, runs: seq<ToolRun>)
    ensures Screen(OnEvents(s, ToolEvents(runs)).out) == Screen(s.out)
    decreases |runs|
  {
    if runs == [] {
    } else {
      var s1 := OnEvent(s, ToolStart(runs[0].name));
      assert s1.out[..|s.out|] == s.out;
      EventsCons(s, ToolStart(runs[0].name), [ToolEnd(runs[0])] + ToolEvents(runs[1..]));
      EventsCons(s1, ToolEnd(runs[0]), ToolEvents(runs[1..]));
      ToolsLeaveTheScreen(OnEvent(s1, ToolEnd(runs[0])), runs[1..]);
    }
  }

  /**
   When the turn replies, the screen holds exactly the text the last call streamed, which
   is one model's, and the reply is that text, or the message's own text when it streamed
   none. Text of earlier steps is gone and a failed call never left any.
   */
  lemma {:induction false} TurnOnScreen(messages: seq<Message>, script: seq<Attempt>, deadline: Option<real>, n: nat,
      s: Stream)
    requires StartAt(messages) < n && Screen(s.out) == ""
    ensures var t := Turn(messages, script, deadline, n);
            t.end.Replied? ==> Shows(OnEvents(s, t.events), t.calls, t.end.msg)
    decreases |script|
  {
    var start := StartAt(messages);
    var step := Walk(script, deadline, start, n, None);
    WalkUsesTheScript(script, deadline, start, n, None);
    WalkIsSticky(script, deadline, start, n, None);
    StepOnScreen(script, deadline, start, n, None, s);
    if step.end.Answered? && step.end.msg.toolCalls != [] {
      var p, m := step.end.position, step.end.msg;
      var after := AfterStep(messages, p, m, n);
      StepEndsWhereTheNextBegins(messages, p, m, n);
      var s1 := OnEvents(s, CallsEvents(step.calls));
      var s2 := OnEvents(s1, ToolEvents(m.toolCalls));
      ToolsLeaveTheScreen(s1, m.toolCalls);
      TurnOnScreen(after, step.rest, deadline, n, s2);
      TurnIsSticky(after, step.rest, deadline, n);
      var rest := Turn(after, step.rest, deadline, n);
      EventsCompose3(s, CallsEvents(step.calls), ToolEvents(m.toolCalls), rest.events);
    }
  }

  lemma EventsCompose3(s: Stream, a: seq<Event>, b: seq<Event>, c: seq<Event>)
    ensures OnEvents(s, a + b + c) == OnEvents(OnEvents(OnEvents(s, a), b), c)
  {
    EventsCompose(s, a + b, c);
    EventsCompose(s, a, b);
  }

  lemma {:induction false} OtherEventsKeepTheResults(s: Stream, events: seq<Event>)
    requires forall i :: 0 <= i < |events| ==> !(events[i].ToolEnd? && events[i].run.name == SEARCH_LAPTOPS)
    ensures OnEvents(s, events).results == s.results
    decreases |events|
  {
    if events == [] {
    } else {
      OtherEventsKeepTheResults(OnEvent(s, events[0]), events[1..]);
    }
  }

  /** `tool_results` is the most recent search of the turn, and only when that one was confident and found something. */
  lemma ResultsAreTheLatestSearch(s: Stream, before: seq<Event>, run: ToolRun, after: seq<Event>)
    requires run.name == SEARCH_LAPTOPS
    requires forall i :: 0 <= i < |after| ==> !(after[i].ToolEnd? && after[i].run.name == SEARCH_LAPTOPS)
    ensures OnEvents(s, before + [ToolEnd(run)] + after).results ==
            if run.confident && run.results != [] then Some(run.results) else None
  {
    EventsCompose3(s, before, [ToolEnd(run)], after);
    var s1 := OnEvents(s, before);
    assert OnEvents(s1, [ToolEnd(run)]) == OnEvents(OnEvent(s1, ToolEnd(run)), []);
    OtherEventsKeepTheResults(OnEvents(s1, [ToolEnd(run)]), after);
  }

  /**
   At the `final` event of a turn, the client holds exactly what the last call of the turn
   streamed, and whenever that is anything at all it is the reply.
   */
  lemma FinalReplyIsOnTheScreen(messages: seq<Message>, script: seq<Attempt>, deadline: Option<real>, n: nat)
    requires n > 0 && Turn(messages + [Human], script, deadline, n).end.Replied?
    ensures var t := Turn(messages + [Human], script, deadline, n);
            var out := Emitted(t.events, false);
            && out[|out| - 1].Final?
            && EndsWithAnswer(t.calls, t.end.msg)
            && Screen(out) == StreamedText(t.calls[|t.calls| - 1].chunks)
            && out[|out| - 1].reply == if Screen(out) != "" then Screen(out) else ContentText(t.end.msg.content)
  {
    TurnOnScreen(messages + [Human], script, deadline, n, NothingYet);
    var s := OnEvents(NothingYet, Turn(messages + [Human], script, deadline, n).events);
    assert (s.out + [Final(s.reply, s.results)])[..|s.out|] == s.out;
  }
}
