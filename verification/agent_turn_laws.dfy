/**
 What the content of messages means to a client of the stream, and which failure a step of the
 chain ends in: app/agent/graph.py, told apart from the functions of AgentTurn that compute it.
 */
module AgentTurnLaws {
  import opened Common
  import opened LlmStream
  import opened AgentTurn

  // --- What a block contributes ----------------------------------------------------------

  lemma Associative(a: string, b: string, c: string)
    ensures (a + b) + c == a + (b + c)
  {
  }

  lemma {:induction false} TextsOfJoin(a: seq<Block>, b: seq<Block>)
    ensures Texts(a + b) == Texts(a) + Texts(b)
  {
    if b == [] {
      assert a + b == a;
    } else {
      var init, last := b[..|b| - 1], b[|b| - 1];
      assert (a + b)[..|a + b| - 1] == a + init && (a + b)[|a + b| - 1] == last;
      TextsOfJoin(a, init);
      Associative(Texts(a), Texts(init), TextOf(last));
    }
  }

  lemma {:induction false} ThoughtsOfJoin(a: seq<Block>, b: seq<Block>)
    ensures Thoughts(a + b) == Thoughts(a) + Thoughts(b)
  {
    if b == [] {
      assert a + b == a;
    } else {
      var init, last := b[..|b| - 1], b[|b| - 1];
      assert (a + b)[..|a + b| - 1] == a + init && (a + b)[|a + b| - 1] == last;
      ThoughtsOfJoin(a, init);
      Associative(Thoughts(a), Thoughts(init), ThoughtOf(last));
    }
  }

  /** Text that a block, put between others, puts at that place of the text shown. */
  lemma TextBlocksAreShown(before: seq<Block>, t: string, after: seq<Block>)
    ensures ChunkText(Blocks(before + [TextBlock(t)] + after)) ==
            ChunkText(Blocks(before)) + t + ChunkText(Blocks(after))
    ensures ChunkText(Blocks(before + [Plain(t)] + after)) ==
            ChunkText(Blocks(before)) + t + ChunkText(Blocks(after))
    ensures ChunkText(Blocks([])) == ""
  {
    OneText(before, TextBlock(t), after);
    OneText(before, Plain(t), after);
  }

  lemma OneText(before: seq<Block>, b: Block, after: seq<Block>)
    ensures Texts(before + [b] + after) == Texts(before) + Texts([b]) + Texts(after)
    ensures Texts([b]) == if b.TextBlock? || b.Plain? then b.text else ""
  {
    TextsOfJoin(before + [b], after);
    TextsOfJoin(before, [b]);
    assert [b][..0] == [];
    assert Texts([b]) == Texts([b][..0]) + TextOf(b);
  }

  lemma OneThought(before: seq<Block>, b: Block, after: seq<Block>)
    ensures Thoughts(before + [b] + after) == Thoughts(before) + Thoughts([b]) + Thoughts(after)
    ensures Thoughts([b]) == if b.ThinkingBlock? then b.thought else ""
  {
    ThoughtsOfJoin(before + [b], after);
    ThoughtsOfJoin(before, [b]);
    assert [b][..0] == [];
    assert Thoughts([b]) == Thoughts([b][..0]) + ThoughtOf(b);
  }

  /** Thinking, and blocks of other kinds, put nothing into the text shown. */
  lemma OtherBlocksAreNotShown(before: seq<Block>, b: Block, after: seq<Block>)
    requires b.ThinkingBlock? || b.OtherBlock?
    ensures ChunkText(Blocks(before + [b] + after)) == ChunkText(Blocks(before + after))
  {
    OneText(before, b, after);
    TextsOfJoin(before, after);
  }

  /** Thinking is shown as thinking, at its place, and nothing else is. */
  lemma ThinkingBlocksAreThinking(before: seq<Block>, b: Block, after: seq<Block>)
    ensures ChunkThinking(Blocks(before + [b] + after)) ==
            ChunkThinking(Blocks(before)) + (if b.ThinkingBlock? then b.thought else "") + ChunkThinking(Blocks(after))
    ensures ChunkThinking(Blocks([])) == ""
  {
    OneThought(before, b, after);
  }

  /** A string is all text. */
  lemma AStringIsText(s: string)
    ensures ChunkText(Str(s)) == ContentText(Str(s)) == s && ChunkThinking(Str(s)) == ""
  {
  }

  function Joined(parts: seq<string>, n: nat): string
    requires n <= |parts|
  {
    if n == 0 then "" else Joined(parts, n - 1) + parts[n - 1]
  }

  /** The first n blocks are thinking, of these thoughts. */
  predicate AreThoughts(blocks: seq<Block>, thoughts: seq<string>) {
    |blocks| == |thoughts| && forall i :: 0 <= i < |blocks| ==> blocks[i] == ThinkingBlock(thoughts[i])
  }

  /** A message of thinking blocks alone reads as its thoughts in order, so that a reply is never empty for nothing. */
  lemma {:induction false} OnlyThoughtsReadAsThoughts(blocks: seq<Block>, thoughts: seq<string>)
    requires AreThoughts(blocks, thoughts)
    ensures ContentText(Blocks(blocks)) == Joined(thoughts, |thoughts|)
    ensures ChunkText(Blocks(blocks)) == ""
  {
    OnlyThoughtsUpTo(blocks, thoughts, |blocks|);
    assert blocks[..|blocks|] == blocks;
  }

  lemma {:induction false} OnlyThoughtsUpTo(blocks: seq<Block>, thoughts: seq<string>, n: nat)
    requires AreThoughts(blocks, thoughts) && n <= |blocks|
    ensures Texts(blocks[..n]) == "" && Thoughts(blocks[..n]) == Joined(thoughts, n)
  {
    if n == 0 {
    } else {
      OnlyThoughtsUpTo(blocks, thoughts, n - 1);
      assert blocks[..n][..n - 1] == blocks[..n - 1];
    }
  }

  /** Where a message has any text, its reading is that text alone. */
  lemma TextSpeaksForTheMessage(c: Content)
    ensures ContentText(c) == if ChunkText(c) != "" then ChunkText(c) else ChunkThinking(c)
  {
  }

  // --- Thoughts stay out of tokens and replies --------------------------------------------

  predicate SameBlock(a: Block, b: Block) {
    a == b || (a.ThinkingBlock? && b.ThinkingBlock?)
  }

  /** Alike in everything but what the thinking blocks say. */
  predicate SameButThoughts(a: Content, b: Content) {
    if a.Str? || b.Str? then a == b
    else |a.blocks| == |b.blocks| && forall i :: 0 <= i < |a.blocks| ==> SameBlock(a.blocks[i], b.blocks[i])
  }

  lemma {:induction false} SameTexts(a: seq<Block>, b: seq<Block>, n: nat)
    requires n <= |a| == |b| && forall i :: 0 <= i < |a| ==> SameBlock(a[i], b[i])
    ensures Texts(a[..n]) == Texts(b[..n])
  {
    if n == 0 {
    } else {
      SameTexts(a, b, n - 1);
      assert a[..n][..n - 1] == a[..n - 1] && b[..n][..n - 1] == b[..n - 1];
      assert SameBlock(a[n - 1], b[n - 1]);
    }
  }

  lemma ThoughtsAreNotText(a: Content, b: Content)
    requires SameButThoughts(a, b)
    ensures ChunkText(a) == ChunkText(b)
    ensures ChunkText(a) != "" ==> ContentText(a) == ContentText(b)
  {
    if a.Blocks? {
      SameTexts(a.blocks, b.blocks, |a.blocks|);
      assert a.blocks[..|a.blocks|] == a.blocks && b.blocks[..|b.blocks|] == b.blocks;
    }
  }

  predicate SameEvent(e: Event, f: Event) {
    match e
    case ModelStream(c) => f.ModelStream? && SameButThoughts(c, f.content)
    case ModelEnd(m) => f.ModelEnd? && m.toolCalls == f.msg.toolCalls && SameButThoughts(m.content, f.msg.content)
    case _ => e == f
  }

  predicate SameEvents(a: seq<Event>, b: seq<Event>) {
    |a| == |b| && forall i :: 0 <= i < |a| ==> SameEvent(a[i], b[i])
  }

  /** What a client sees that is not thinking. */
  function WithoutThinking(out: seq<ClientEvent>): seq<ClientEvent> {
    if out == [] then []
    else
      var last := out[|out| - 1];
      WithoutThinking(out[..|out| - 1]) + if last.Thinking? then [] else [last]
  }

  lemma WithoutThinkingOfMore(out: seq<ClientEvent>, e: ClientEvent)
    ensures WithoutThinking(out + [e]) == WithoutThinking(out) + if e.Thinking? then [] else [e]
  {
    assert (out + [e])[..|out|] == out;
  }

  /** The event settles the reply on a message without text when none was streamed: the one case thoughts reply. */
  predicate RepliesWithThoughts(s: Stream, e: Event) {
    e.ModelEnd? && e.msg.toolCalls == [] && s.turnText == "" && ChunkText(e.msg.content) == ""
  }

  predicate NeverRepliesWithThoughts(s: Stream, events: seq<Event>)
    decreases |events|
  {
    events == [] || (!RepliesWithThoughts(s, events[0]) && NeverRepliesWithThoughts(OnEvent(s, events[0]), events[1..]))
  }

  /** Alike in everything a client sees but thinking, the reply apart. */
  predicate SameShown(s: Stream, t: Stream) {
    s.turnText == t.turnText && s.results == t.results && WithoutThinking(s.out) == WithoutThinking(t.out)
  }

  /** The chunk adds one token of its text, if it has any, and its thinking before it. */
  lemma ChunkAddsItsText(s: Stream, c: Content)
    ensures var e := OnEvent(s, ModelStream(c));
            && WithoutThinking(e.out) ==
               WithoutThinking(s.out) + (if ChunkText(c) != "" then [Token(ChunkText(c))] else [])
            && e.turnText == (if ChunkText(c) != "" then s.turnText + ChunkText(c) else s.turnText)
            && e.results == s.results && e.reply == s.reply
  {
    var s1 := if ChunkThinking(c) != "" then s.(out := s.out + [Thinking(ChunkThinking(c))]) else s;
    WithoutThinkingOfMore(s.out, Thinking(ChunkThinking(c)));
    WithoutThinkingOfMore(s1.out, Token(ChunkText(c)));
  }

  lemma EventKeepsThoughtsPrivate(s: Stream, t: Stream, e: Event, f: Event)
    requires SameShown(s, t) && SameEvent(e, f)
    ensures SameShown(OnEvent(s, e), OnEvent(t, f))
    ensures s.reply == t.reply && !RepliesWithThoughts(s, e) ==> OnEvent(s, e).reply == OnEvent(t, f).reply
    ensures RepliesWithThoughts(s, e) <==> RepliesWithThoughts(t, f)
  {
    match e {
      case ModelStream(c) =>
        ThoughtsAreNotText(c, f.content);
        ChunkAddsItsText(s, c);
        ChunkAddsItsText(t, f.content);
      case ModelEnd(m) =>
        ThoughtsAreNotText(m.content, f.msg.content);
        WithoutThinkingOfMore(s.out, TurnReset);
        WithoutThinkingOfMore(t.out, TurnReset);
      case ToolStart(name) =>
        WithoutThinkingOfMore(s.out, ToolNotice(name));
        WithoutThinkingOfMore(t.out, ToolNotice(name));
      case _ =>
    }
  }

  lemma {:induction false} EventsKeepThoughtsPrivate(s: Stream, t: Stream, a: seq<Event>, b: seq<Event>)
    requires SameShown(s, t) && SameEvents(a, b)
    ensures SameShown(OnEvents(s, a), OnEvents(t, b))
    ensures s.reply == t.reply && NeverRepliesWithThoughts(s, a) ==> OnEvents(s, a).reply == OnEvents(t, b).reply
    decreases |a|
  {
    if a == [] {
    } else {
      EventKeepsThoughtsPrivate(s, t, a[0], b[0]);
      EventsKeepThoughtsPrivate(OnEvent(s, a[0]), OnEvent(t, b[0]), a[1..], b[1..]);
    }
  }

  /**
   Whatever the model thinks changes nothing a client gets but its thinking events: no token, no
   turn_reset, no tool notice, no result, and no reply, unless that is of a message without text.
   */
  lemma ThoughtsStayPrivate(a: seq<Event>, b: seq<Event>, raised: bool)
    requires SameEvents(a, b)
    ensures WithoutThinking(Emitted(a, true)) == WithoutThinking(Emitted(b, true))
    ensures NeverRepliesWithThoughts(NothingYet, a) ==>
              WithoutThinking(Emitted(a, raised)) == WithoutThinking(Emitted(b, raised))
  {
    EventsKeepThoughtsPrivate(NothingYet, NothingYet, a, b);
    var s, t := OnEvents(NothingYet, a), OnEvents(NothingYet, b);
    WithoutThinkingOfMore(s.out, Final(s.reply, s.results));
    WithoutThinkingOfMore(t.out, Final(t.reply, t.results));
  }

  // --- Everything streamed is shown once, in order ------------------------------------------

  function TokensOf(out: seq<ClientEvent>): seq<string> {
    if out == [] then []
    else
      var last := out[|out| - 1];
      TokensOf(out[..|out| - 1]) + if last.Token? then [last.text] else []
  }

  function ThinkingOf(out: seq<ClientEvent>): seq<string> {
    if out == [] then []
    else
      var last := out[|out| - 1];
      ThinkingOf(out[..|out| - 1]) + if last.Thinking? then [last.thought] else []
  }

  function NoticesOf(out: seq<ClientEvent>): seq<string> {
    if out == [] then []
    else
      var last := out[|out| - 1];
      NoticesOf(out[..|out| - 1]) + if last.ToolNotice? then [last.name] else []
  }

  function IfAny(text: string): seq<string> {
    if text != "" then [text] else []
  }

  /** The texts of the chunks among the first n events. */
  function TextsStreamed(events: seq<Event>, n: nat): seq<string>
    requires n <= |events|
  {
    if n == 0 then []
    else
      var e := events[n - 1];
      TextsStreamed(events, n - 1) + if e.ModelStream? then IfAny(ChunkText(e.content)) else []
  }

  function ThoughtsStreamed(events: seq<Event>, n: nat): seq<string>
    requires n <= |events|
  {
    if n == 0 then []
    else
      var e := events[n - 1];
      ThoughtsStreamed(events, n - 1) + if e.ModelStream? then IfAny(ChunkThinking(e.content)) else []
  }

  function ToolsStarted(events: seq<Event>, n: nat): seq<string>
    requires n <= |events|
  {
    if n == 0 then [] else ToolsStarted(events, n - 1) + if events[n - 1].ToolStart? then [events[n - 1].name] else []
  }

  lemma ShownOfMore(out: seq<ClientEvent>, e: ClientEvent)
    ensures TokensOf(out + [e]) == TokensOf(out) + if e.Token? then [e.text] else []
    ensures ThinkingOf(out + [e]) == ThinkingOf(out) + if e.Thinking? then [e.thought] else []
    ensures NoticesOf(out + [e]) == NoticesOf(out) + if e.ToolNotice? then [e.name] else []
  {
    assert (out + [e])[..|out|] == out;
  }

  function PlusThinking(out: seq<ClientEvent>, thinking: string): seq<ClientEvent> {
    if thinking != "" then out + [Thinking(thinking)] else out
  }

  function PlusToken(out: seq<ClientEvent>, text: string): seq<ClientEvent> {
    if text != "" then out + [Token(text)] else out
  }

  lemma ThinkingShows(out: seq<ClientEvent>, thinking: string)
    ensures TokensOf(PlusThinking(out, thinking)) == TokensOf(out)
    ensures ThinkingOf(PlusThinking(out, thinking)) == ThinkingOf(out) + IfAny(thinking)
    ensures NoticesOf(PlusThinking(out, thinking)) == NoticesOf(out)
  {
    ShownOfMore(out, Thinking(thinking));
  }

  lemma TokenShows(out: seq<ClientEvent>, text: string)
    ensures TokensOf(PlusToken(out, text)) == TokensOf(out) + IfAny(text)
    ensures ThinkingOf(PlusToken(out, text)) == ThinkingOf(out)
    ensures NoticesOf(PlusToken(out, text)) == NoticesOf(out)
  {
    ShownOfMore(out, Token(text));
  }

  lemma ChunkShows(s: Stream, c: Content)
    ensures var t := OnEvent(s, ModelStream(c));
            && TokensOf(t.out) == TokensOf(s.out) + IfAny(ChunkText(c))
            && ThinkingOf(t.out) == ThinkingOf(s.out) + IfAny(ChunkThinking(c))
            && NoticesOf(t.out) == NoticesOf(s.out)
  {
    var thinking, text := ChunkThinking(c), ChunkText(c);
    assert OnEvent(s, ModelStream(c)).out == PlusToken(PlusThinking(s.out, thinking), text);
    ThinkingShows(s.out, thinking);
    TokenShows(PlusThinking(s.out, thinking), text);
  }

  lemma EventShows(s: Stream, e: Event)
    ensures var t := OnEvent(s, e);
            && TokensOf(t.out) == TokensOf(s.out) + (if e.ModelStream? then IfAny(ChunkText(e.content)) else [])
            && ThinkingOf(t.out) == ThinkingOf(s.out) + (if e.ModelStream? then IfAny(ChunkThinking(e.content)) else [])
            && NoticesOf(t.out) == NoticesOf(s.out) + (if e.ToolStart? then [e.name] else [])
  {
    match e {
      case ModelStream(c) => ChunkShows(s, c);
      case ModelEnd(_) => ShownOfMore(s.out, TurnReset);
      case ToolStart(name) => ShownOfMore(s.out, ToolNotice(name));
      case _ =>
    }
  }

  lemma OneMoreEvent(events: seq<Event>, m: nat)
    requires m < |events|
    ensures OnEvents(NothingYet, events[..m + 1]) == OnEvent(OnEvents(NothingYet, events[..m]), events[m])
  {
    assert events[..m + 1] == events[..m] + [events[m]];
    EventsCompose(NothingYet, events[..m], [events[m]]);
    var s := OnEvents(NothingYet, events[..m]);
    assert OnEvents(s, [events[m]]) == OnEvents(OnEvent(s, events[m]), []) == OnEvent(s, events[m]);
  }

  lemma {:induction false} EventsUpTo(events: seq<Event>, n: nat)
    requires n <= |events|
    ensures var out := OnEvents(NothingYet, events[..n]).out;
            && TokensOf(out) == TextsStreamed(events, n)
            && ThinkingOf(out) == ThoughtsStreamed(events, n)
            && NoticesOf(out) == ToolsStarted(events, n)
  {
    if n == 0 {
    } else {
      var m := n - 1;
      EventsUpTo(events, m);
      OneMoreEvent(events, m);
      EventShows(OnEvents(NothingYet, events[..m]), events[m]);
      assert n == m + 1;
    }
  }

  /** The tokens are the chunks' texts, the thinking events their thoughts, the notices the started tools, in order. */
  lemma EverythingStreamedIsShown(events: seq<Event>, raised: bool)
    ensures var out := Emitted(events, raised);
            && TokensOf(out) == TextsStreamed(events, |events|)
            && ThinkingOf(out) == ThoughtsStreamed(events, |events|)
            && NoticesOf(out) == ToolsStarted(events, |events|)
  {
    EventsUpTo(events, |events|);
    assert events[..|events|] == events;
    var s := OnEvents(NothingYet, events);
    ShownOfMore(s.out, Final(s.reply, s.results));
  }

  // --- How a step ends --------------------------------------------------------------------

  /** The calls are those of consecutive models, each with the script's next attempt. */
  ghost predicate AreCalls(calls: seq<Call>, script: seq<Attempt>, deadline: Option<real>, position: nat) {
    |calls| <= |script| && forall i :: 0 <= i < |calls| ==> calls[i] == CallAt(position + i, script[i], deadline)
  }

  ghost predicate FailedHandled(c: Call) {
    c.error.Some? && Handled(c.error.value)
  }

  /**
   A step calls one model after the other while each fails in a way another may fix. It ends in
   the first answer; or in the first failure no other model may fix; or, when the chain runs
   out, in the failure of its first call.
   */
  lemma {:induction false} StepEnds(script: seq<Attempt>, deadline: Option<real>, position: nat, n: nat,
      first: Option<Failure>)
    ensures var w := Walk(script, deadline, position, n, first);
            && AreCalls(w.calls, script, deadline, position) && w.rest == script[|w.calls|..]
            && (forall i :: 0 <= i < |w.calls| - 1 ==> FailedHandled(w.calls[i]))
            && StepEndsIn(w, position, n, first)
    decreases n - position
  {
    if position < n && script != [] {
      var call := CallAt(position, script[0], deadline);
      if FailedHandled(call) {
        var next := if first.Some? then first else call.error;
        var later := Walk(script[1..], deadline, position + 1, n, next);
        StepEnds(script[1..], deadline, position + 1, n, next);
        MoreCalls(later.calls, script, deadline, position);
        EndsLater(call, later, position, n, first);
        assert Walk(script, deadline, position, n, first) == After([call], later);
      }
    }
  }

  /** A failed first call leaves the end to the rest of the walk. */
  lemma EndsLater(call: Call, later: StepRun, position: nat, n: nat, first: Option<Failure>)
    requires position < n && FailedHandled(call)
    requires StepEndsIn(later, position + 1, n, if first.Some? then first else call.error)
    ensures StepEndsIn(After([call], later), position, n, first)
  {
    var w := After([call], later);
    assert w.calls[0] == call;
    assert later.calls != [] ==> w.calls[|w.calls| - 1] == later.calls[|later.calls| - 1];
  }

  lemma MoreCalls(later: seq<Call>, script: seq<Attempt>, deadline: Option<real>, position: nat)
    requires script != [] && AreCalls(later, script[1..], deadline, position + 1)
    requires FailedHandled(CallAt(position, script[0], deadline))
    requires forall i :: 0 <= i < |later| - 1 ==> FailedHandled(later[i])
    ensures var calls := [CallAt(position, script[0], deadline)] + later;
            && AreCalls(calls, script, deadline, position) && script[1..][|later|..] == script[|calls|..]
            && (forall i :: 0 <= i < |calls| - 1 ==> FailedHandled(calls[i]))
  {
    var calls := [CallAt(position, script[0], deadline)] + later;
    forall i | 0 <= i < |calls|
      ensures calls[i] == CallAt(position + i, script[i], deadline)
    {
      if i > 0 {
        assert calls[i] == later[i - 1] && script[i] == script[1..][i - 1];
      }
    }
    forall i | 0 <= i < |calls| - 1
      ensures FailedHandled(calls[i])
    {
      if i > 0 {
        assert calls[i] == later[i - 1];
      }
    }
  }

  ghost predicate StepEndsIn(w: StepRun, position: nat, n: nat, first: Option<Failure>) {
    match w.end
    case Answered(p, m) =>
      && w.calls != []
      && var last := w.calls[|w.calls| - 1];
         last.error == None && p == last.position && m == last.msg
    case Raised(e) =>
      if w.calls != [] && !FailedHandled(w.calls[|w.calls| - 1]) then w.calls[|w.calls| - 1].error == Some(e)
      else
        && |w.calls| == (if position < n then n - position else 0)
        && e == if first.Some? then first.value else if w.calls != [] then w.calls[0].error.GetOr(OTHER) else OTHER
    case Unfinished =>
      |w.calls| < n - position && (w.calls != [] ==> FailedHandled(w.calls[|w.calls| - 1]))
  }
}
