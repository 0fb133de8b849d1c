/** The streaming parser of the Anthropic adapter. */
module AnthropicStream {
  import opened AdapterTypes
  import opened Lines
  import opened Sequences
  import opened Wrappers

  const MAX_BUFFER_SIZE: nat := 1_048_576

  // ---- What the wire carries ---------------------------------------------------

  datatype ToolUse = ToolUse(id: string, name: string)

  /** The field accesses the parser makes on one parsed payload, by event type. */
  datatype Event =
    | BlockStart(index: Option<int>, tool: Option<ToolUse>)
    | TextDelta(index: Option<int>, text: string)
    | JsonDelta(index: Option<int>, partial: string)
    | OtherDelta(index: Option<int>)
    | BlockStop(index: Option<int>)
    | MessageStart(inputTokens: int)
    | MessageDelta(outputTokens: int)
    | Other
  {
    /** Whether the parser moves to the block named by the event. */
    predicate NamesBlock() {
      !MessageStart? && !MessageDelta? && !Other?
    }

    predicate Names(block: int) {
      NamesBlock() && index == Some(block)
    }

    predicate IsDelta() {
      TextDelta? || JsonDelta? || OtherDelta?
    }
  }

  /** JSON.parse followed by those accesses; None where parsing throws. */
  datatype Wire = Wire(event: string -> Option<Event>, arguments: ArgumentParser)

  function EventOf(line: string, wire: Wire): Option<Event> {
    match Payload(line)
    case None => None
    case Some(data) => if data == "" then None else wire.event(data)
  }

  function Events(lines: seq<string>, wire: Wire): seq<Event> {
    if lines == [] then []
    else
      var n := |lines| - 1;
      var event := EventOf(lines[n], wire);
      Events(lines[..n], wire) + if event.Some? then [event.value] else []
  }

  // ---- One block at a time --------------------------------------------------------

  /** The block an event belongs to: the one it names, or else the last one named. */
  function CurrentBlock(events: seq<Event>): int {
    if events == [] then 0
    else
      var n := |events| - 1;
      if events[n].NamesBlock() && events[n].index.Some? then events[n].index.value else CurrentBlock(events[..n])
  }

  /** What an event does to its block, once the block is known. */
  datatype Action = Open(block: int, tool: ToolUse) | Feed(block: int, partial: string) | Close(block: int)

  function ActionOf(event: Event, block: int): Option<Action> {
    match event
    case BlockStart(_, Some(tool)) => Some(Open(block, tool))
    case JsonDelta(_, partial) => Some(Feed(block, partial))
    case BlockStop(_) => Some(Close(block))
    case _ => None
  }

  function Actions(events: seq<Event>): seq<Action> {
    if events == [] then []
    else
      var n := |events| - 1;
      var action := ActionOf(events[n], CurrentBlock(events));
      Actions(events[..n]) + if action.Some? then [action.value] else []
  }

  /** What an action leaves in a block. */
  function Effect(earlier: Option<PendingCall>, action: Action): Option<PendingCall> {
    match action
    case Open(_, tool) => Some(PendingCall(tool.id, tool.name, ""))
    case Feed(_, partial) => if earlier.Some? then Some(earlier.value.(args := earlier.value.args + partial)) else None
    case Close(_) => None
  }

  /** The tool call a block holds after some actions, if any. */
  function Held(actions: seq<Action>, block: int): Option<PendingCall> {
    if actions == [] then None
    else
      var n := |actions| - 1;
      var earlier := Held(actions[..n], block);
      if actions[n].block == block then Effect(earlier, actions[n]) else earlier
  }

  /** The calls handed out, one for each close of a block that holds one. */
  function Calls(actions: seq<Action>): seq<PendingCall> {
    if actions == [] then []
    else
      var n := |actions| - 1;
      Calls(actions[..n]) + CallsOf(actions[..n], actions[n])
  }

  function CallsOf(before: seq<Action>, action: Action): seq<PendingCall> {
    if action.Close? && Held(before, action.block).Some? then [Held(before, action.block).value] else []
  }

  // ---- What is emitted ---------------------------------------------------------------

  /** What one event makes the parser emit, given the actions before it and its block. */
  function Emission(before: seq<Action>, event: Event, block: int, wire: Wire): seq<AdapterChunk> {
    if event.TextDelta? then
      if event.text != "" then [Text(event.text)] else []
    else
      var action := ActionOf(event, block);
      if action.Some? then CallChunks(ParseAll(CallsOf(before, action.value), wire.arguments)) else []
  }

  function Output(events: seq<Event>, wire: Wire): seq<AdapterChunk> {
    if events == [] then []
    else
      var n := |events| - 1;
      Output(events[..n], wire) + Emission(Actions(events[..n]), events[n], CurrentBlock(events), wire)
  }

  function InputTokens(events: seq<Event>): int {
    if events == [] then 0
    else
      var n := |events| - 1;
      InputTokens(events[..n]) + if events[n].MessageStart? then events[n].inputTokens else 0
  }

  function OutputTokens(events: seq<Event>): int {
    if events == [] then 0
    else
      var n := |events| - 1;
      OutputTokens(events[..n]) + if events[n].MessageDelta? then events[n].outputTokens else 0
  }

  /** The answer to a text: text and calls as they come, the usage totals once, then the end. */
  function Answer(text: string, wire: Wire): seq<AdapterChunk> {
    var events := Events(CompleteLines(text), wire);
    Output(events, wire) + [Usage(AdapterUsage(InputTokens(events), OutputTokens(events))), Done(None)]
  }

  /** Whether fragment k fits the buffer together with the tail of the text before it. */
  predicate FitsAt(fragments: seq<string>, k: nat)
    requires k < |fragments|
  {
    |Tail(Concat(fragments[..k])) + fragments[k]| <= MAX_BUFFER_SIZE
  }

  /** The position from k on at which reading stops. */
  function StopsAt(fragments: seq<string>, k: nat): (stop: nat)
    requires k <= |fragments|
    ensures k <= stop <= |fragments|
    decreases |fragments| - k
  {
    if k < |fragments| && FitsAt(fragments, k) then StopsAt(fragments, k + 1) else k
  }

  /** How many fragments are read before one would overflow the buffer. */
  function Accepted(fragments: seq<string>): (k: nat)
    ensures k <= |fragments|
  {
    StopsAt(fragments, 0)
  }

  // ---- The program ---------------------------------------------------------------------

  ghost predicate Holds(pending: map<int, PendingCall>, actions: seq<Action>) {
    && (forall b :: b in pending <==> Held(actions, b).Some?)
    && (forall b :: b in pending ==> Some(pending[b]) == Held(actions, b))
  }

  /** The local variables of the generator. */
  datatype Locals = Locals(pending: map<int, PendingCall>, currentBlock: int, promptTokens: int, completionTokens: int)

  ghost predicate Agrees(locals: Locals, events: seq<Event>) {
    && Holds(locals.pending, Actions(events))
    && locals.currentBlock == CurrentBlock(events)
    && locals.promptTokens == InputTokens(events)
    && locals.completionTokens == OutputTokens(events)
  }

  /** The switch over the event type: the part that concerns the pending tools. */
  method UpdatePending(action: Action, arguments: ArgumentParser, before: map<int, PendingCall>,
                       ghost actions: seq<Action>)
      returns (emitted: seq<AdapterChunk>, after: map<int, PendingCall>)
    requires Holds(before, actions)
    ensures Holds(after, actions + [action])
    ensures emitted == CallChunks(ParseAll(CallsOf(actions, action), arguments))
  {
    emitted, after := [], before;
    ActionAppend(actions, action);
    var current := action.block;
    match action {
      case Open(_, tool) =>
        after := before[current := PendingCall(tool.id, tool.name, "")];
      case Feed(_, partial) =>
        if current in before {
          var tool := before[current];
          if partial != "" {
            tool := tool.(args := tool.args + partial);
          }
          assert tool.args == before[current].args + partial;
          after := before[current := tool];
        }
      case Close(_) =>
        if current in before {
          var tool := before[current];
          var args := arguments.empty;
          match arguments.parse(tool.args) {
            case Some(json) => args := json;
            case None =>
          }
          emitted := [ToolCall(AdapterToolCall(tool.id, tool.name, args))];
          after := before - {current};
        }
    }
  }

  /** The whole switch. */
  method HandleEvent(event: Event, wire: Wire, before: Locals, ghost events: seq<Event>)
      returns (emitted: seq<AdapterChunk>, after: Locals)
    requires Agrees(before, events)
    ensures Agrees(after, events + [event])
    ensures Output(events + [event], wire) == Output(events, wire) + emitted
  {
    emitted := [];
    var pending, current := before.pending, before.currentBlock;
    var prompt, completion := before.promptTokens, before.completionTokens;
    if event.NamesBlock() && event.index.Some? {
      current := event.index.value;
    }
    var action := None;
    match event {
      case BlockStart(_, Some(tool)) => action := Some(Open(current, tool));
      case JsonDelta(_, partial) => action := Some(Feed(current, partial));
      case BlockStop(_) => action := Some(Close(current));
      case TextDelta(_, text) => emitted := if text != "" then [Text(text)] else [];
      case MessageDelta(tokens) => completion := completion + tokens;
      case MessageStart(tokens) => prompt := prompt + tokens;
      case _ =>
    }
    assert action == ActionOf(event, current);
    if action.Some? {
      emitted, pending := UpdatePending(action.value, wire.arguments, before.pending, Actions(events));
    }
    after := Locals(pending, current, prompt, completion);
    EventAppend(events, event, current, wire);
  }

  lemma EventAppend(events: seq<Event>, event: Event, block: int, wire: Wire)
    requires block == if event.NamesBlock() && event.index.Some? then event.index.value else CurrentBlock(events)
    ensures CurrentBlock(events + [event]) == block
    ensures InputTokens(events + [event]) ==
      InputTokens(events) + if event.MessageStart? then event.inputTokens else 0
    ensures OutputTokens(events + [event]) ==
      OutputTokens(events) + if event.MessageDelta? then event.outputTokens else 0
    ensures ActionOf(event, block).None? ==> Actions(events + [event]) == Actions(events)
    ensures ActionOf(event, block).Some? ==>
      Actions(events + [event]) == Actions(events) + [ActionOf(event, block).value]
    ensures Output(events + [event], wire) == Output(events, wire) + Emission(Actions(events), event, block, wire)
  {
  }

  /** The body of the inner loop, after a line has been cut off the buffer. */
  method HandleLine(line: string, wire: Wire, before: Locals, ghost lines: seq<string>)
      returns (emitted: seq<AdapterChunk>, after: Locals)
    requires Agrees(before, Events(lines, wire))
    ensures Agrees(after, Events(lines + [line], wire))
    ensures Output(Events(lines + [line], wire), wire) == Output(Events(lines, wire), wire) + emitted
  {
    emitted, after := [], before;
    LineAppend(lines, line, wire);
    if !("data: " <= line) {
      return;
    }
    var dataStr := Trim(line[6..]);
    if dataStr == "" {
      return;
    }
    match wire.event(dataStr) {
      case None =>
      case Some(event) => emitted, after := HandleEvent(event, wire, before, Events(lines, wire));
    }
  }

  /** The inner loop: every terminated line leaves the buffer. */
  method DrainLines(carried: string, wire: Wire, before: Locals, yielded: seq<AdapterChunk>, ghost seen: seq<string>)
      returns (buffer: string, out: seq<AdapterChunk>, after: Locals)
    requires Agrees(before, Events(seen, wire)) && yielded == Output(Events(seen, wire), wire)
    ensures buffer == Tail(carried)
    ensures Agrees(after, Events(seen + CompleteLines(carried), wire))
    ensures out == Output(Events(seen + CompleteLines(carried), wire), wire)
  {
    buffer, out, after := carried, yielded, before;
    ghost var lines := seen;
    var i := IndexOfNewline(buffer);
    while i >= 0
      invariant i == IndexOfNewline(buffer)
      invariant lines + CompleteLines(buffer) == seen + CompleteLines(carried) && Tail(buffer) == Tail(carried)
      invariant Agrees(after, Events(lines, wire)) && out == Output(Events(lines, wire), wire)
      decreases |buffer|
    {
      var line := Trim(buffer[..i]);
      var chunks;
      chunks, after := HandleLine(line, wire, after, lines);
      out := out + chunks;
      NewlineStep(buffer, i);
      buffer := buffer[i + 1..];
      Regroup(lines, [line], CompleteLines(buffer));
      lines := lines + [line];
      i := IndexOfNewline(buffer);
    }
    assert lines + [] == lines;
  }

  /** The state of the parser once it has read a text. */
  ghost predicate IsRead(buffer: string, out: seq<AdapterChunk>, locals: Locals, text: string, wire: Wire) {
    && buffer == Tail(text)
    && Agrees(locals, Events(CompleteLines(text), wire))
    && out == Output(Events(CompleteLines(text), wire), wire)
  }

  lemma NothingRead(wire: Wire)
    ensures IsRead("", [], Locals(map[], 0, 0, 0), "", wire)
  {
  }

  /** The body of the outer loop once a fragment has been found to fit the buffer. */
  method TakeFragment(carried: string, fragment: string, wire: Wire, yielded: seq<AdapterChunk>, before: Locals,
                      ghost text: string)
      returns (buffer: string, out: seq<AdapterChunk>, after: Locals)
    requires IsRead(carried, yielded, before, text, wire)
    ensures IsRead(buffer, out, after, text + fragment, wire)
  {
    CarryTail(text, fragment);
    buffer, out, after := DrainLines(carried + fragment, wire, before, yielded, CompleteLines(text));
  }

  method ParseStream(body: Option<seq<string>>, wire: Wire) returns (out: seq<AdapterChunk>)
    ensures body.None? ==> out == []
    ensures body.Some? ==> out == Answer(Concat(body.value[..Accepted(body.value)]), wire)
  {
    out := [];
    if body.None? {
      return;
    }
    var fragments := body.value;
    var buffer := "";
    var locals := Locals(map[], 0, 0, 0);
    ghost var text := "";
    NothingRead(wire);
    var k := 0;
    while k < |fragments|
      invariant 0 <= k <= |fragments| && StopsAt(fragments, k) == Accepted(fragments)
      invariant text == Concat(fragments[..k]) && IsRead(buffer, out, locals, text, wire)
    {
      ConcatNext(fragments, k);
      if |buffer + fragments[k]| > MAX_BUFFER_SIZE {
        break;
      }
      buffer, out, locals := TakeFragment(buffer, fragments[k], wire, out, locals, text);
      text := text + fragments[k];
      k := k + 1;
    }
    assert Accepted(fragments) == k;
    out := out + [Usage(AdapterUsage(locals.promptTokens, locals.completionTokens)), Done(None)];
  }

  lemma ConcatNext(fragments: seq<string>, k: nat)
    requires k < |fragments|
    ensures Concat(fragments[..k + 1]) == Concat(fragments[..k]) + fragments[k]
  {
    assert fragments[..k + 1] == fragments[..k] + [fragments[k]];
    ConcatAppend(fragments[..k], fragments[k]);
  }

  lemma LineAppend(lines: seq<string>, line: string, wire: Wire)
    ensures EventOf(line, wire).Some? ==>
      Events(lines + [line], wire) == Events(lines, wire) + [EventOf(line, wire).value]
    ensures EventOf(line, wire).None? ==> Events(lines + [line], wire) == Events(lines, wire)
  {
  }

  lemma ActionAppend(actions: seq<Action>, action: Action)
    ensures forall b ::
      Held(actions + [action], b) == if action.block == b then Effect(Held(actions, b), action) else Held(actions, b)
    ensures Calls(actions + [action]) == Calls(actions) + CallsOf(actions, action)
  {
  }

  // ---- The buffer limit -------------------------------------------------------------------

  lemma {:induction false} TailLength(text: string)
    ensures |Tail(text)| <= |text|
  {
    var i := IndexOfNewline(text);
    if i >= 0 {
      TailLength(text[i + 1..]);
    }
  }

  lemma {:induction false} ConcatSplit(fragments: seq<string>, k: nat)
    requires k <= |fragments|
    ensures Concat(fragments) == Concat(fragments[..k]) + Concat(fragments[k..])
  {
    if k > 0 {
      ConcatSplit(fragments[1..], k - 1);
      assert fragments[..k][1..] == fragments[1..][..k - 1];
    } else {
      assert fragments[0..] == fragments;
    }
  }

  lemma {:induction false} ShortTextAccepted(fragments: seq<string>, k: nat)
    requires k <= |fragments| && |Concat(fragments)| <= MAX_BUFFER_SIZE
    ensures StopsAt(fragments, k) == |fragments|
    decreases |fragments| - k
  {
    if k < |fragments| {
      ConcatSplit(fragments, k);
      TailLength(Concat(fragments[..k]));
      ShortTextAccepted(fragments, k + 1);
    }
  }

  /** Every way of cutting a text is read to the end exactly when the text fits the buffer whole. */
  lemma EveryCutAccepted(text: string)
    ensures (forall fragments :: Concat(fragments) == text ==> Accepted(fragments) == |fragments|)
       <==> |text| <= 1_048_576
  {
    if |text| <= MAX_BUFFER_SIZE {
      forall fragments | Concat(fragments) == text ensures Accepted(fragments) == |fragments| {
        ShortTextAccepted(fragments, 0);
      }
    } else {
      OneFragment(text);
    }
  }

  /** Beyond that the answer depends on the cut: take any line that yields text, and pad it. The same
      text, cut in two ways, has two answers. */
  lemma CutMattersBeyondLimit(wire: Wire, line: string, index: Option<int>, greeting: string, padding: string)
    requires '\n' !in line && |line| < 1_048_576
    requires EventOf(Trim(line), wire) == Some(TextDelta(index, greeting)) && greeting != ""
    requires '\n' !in padding && |padding| == 1_048_576
    ensures var whole, cut := [line + "\n" + padding], [line + "\n", padding];
      Concat(whole) == Concat(cut) &&
      Answer(Concat(whole[..Accepted(whole)]), wire) == [Usage(AdapterUsage(0, 0)), Done(None)] &&
      Answer(Concat(cut[..Accepted(cut)]), wire) == [Text(greeting), Usage(AdapterUsage(0, 0)), Done(None)]
  {
    var first := line + "\n";
    var whole, cut := [first + padding], [first, padding];
    OneFragment(first + padding);
    LineHasNoTail(line);
    TwoFragments(first, padding);
    assert whole[..0] == [] && cut[..2] == cut;
    EmptyAnswer(wire);
    LineThenPadding(line, padding);
    SingleTextAnswer(first + padding, Trim(line), index, greeting, wire);
  }

  lemma LineHasNoTail(line: string)
    requires '\n' !in line
    ensures Tail(line + "\n") == ""
  {
    FirstLine(line, "");
    assert line + "\n" + "" == line + "\n";
  }

  lemma {:induction false} LineThenPadding(line: string, padding: string)
    requires '\n' !in line && '\n' !in padding
    ensures CompleteLines(line + "\n" + padding) == [Trim(line)]
  {
    FirstLine(line, padding);
    CutOfPadding(padding);
  }

  lemma EmptyAnswer(wire: Wire)
    ensures Answer("", wire) == [Usage(AdapterUsage(0, 0)), Done(None)]
  {
  }

  lemma TwoFragments(a: string, b: string)
    requires |a| <= MAX_BUFFER_SIZE
    ensures Concat([a, b]) == a + b
    ensures |Tail(a) + b| <= MAX_BUFFER_SIZE ==> Accepted([a, b]) == 2
  {
    var both := [a, b];
    assert both[1..] == [b] && both[..1] == [a] && both[..0] == [];
    OneFragment(a);
    OneFragment(b);
    assert Tail("") + a == a;
    assert FitsAt(both, 0);
    if |Tail(a) + b| <= MAX_BUFFER_SIZE {
      assert FitsAt(both, 1);
      assert StopsAt(both, 1) == StopsAt(both, 2) == 2;
    }
  }

  lemma SingleTextAnswer(text: string, line: string, index: Option<int>, greeting: string, wire: Wire)
    requires CompleteLines(text) == [line] && EventOf(line, wire) == Some(TextDelta(index, greeting)) && greeting != ""
    ensures Answer(text, wire) == [Text(greeting), Usage(AdapterUsage(0, 0)), Done(None)]
  {
    EventsOfOneLine(line, wire);
    SingleTextEvent(TextDelta(index, greeting), wire);
  }

  lemma EventsOfOneLine(line: string, wire: Wire)
    requires EventOf(line, wire).Some?
    ensures Events([line], wire) == [EventOf(line, wire).value]
  {
  }

  lemma SingleTextEvent(event: Event, wire: Wire)
    requires event.TextDelta? && event.text != ""
    ensures Output([event], wire) == [Text(event.text)] && InputTokens([event]) == 0 && OutputTokens([event]) == 0
  {
  }

  lemma OneFragment(text: string)
    ensures Concat([text]) == text
    ensures Accepted([text]) == if |text| <= MAX_BUFFER_SIZE then 1 else 0
  {
  }

  lemma CutOfPadding(padding: string)
    requires '\n' !in padding
    ensures CompleteLines(padding) == []
  {
    SearchMeetsIndexOf(padding);
  }

  // ---- Blocks do not interfere ------------------------------------------------------------

  function Project(actions: seq<Action>, block: int): (own: seq<Action>)
    ensures forall i :: 0 <= i < |own| ==> own[i].block == block
  {
    if actions == [] then []
    else
      var n := |actions| - 1;
      Project(actions[..n], block) + if actions[n].block == block then [actions[n]] else []
  }

  /** What a block holds depends on its own actions alone. */
  lemma {:induction false} HeldByOwnActions(actions: seq<Action>, block: int)
    ensures Held(actions, block) == Held(Project(actions, block), block)
  {
    if actions != [] {
      var n := |actions| - 1;
      HeldByOwnActions(actions[..n], block);
      var own := Project(actions[..n], block);
      assert (own + [actions[n]])[..|own|] == own && own + [] == own;
    }
  }

  function Feeds(block: int, partials: seq<string>): (feeds: seq<Action>)
    ensures |feeds| == |partials|
    ensures forall i :: 0 <= i < |partials| ==> feeds[i] == Feed(block, partials[i])
  {
    seq(|partials|, i requires 0 <= i < |partials| => Feed(block, partials[i]))
  }

  lemma {:induction false} FeedsAccumulate(before: seq<Action>, block: int, tool: ToolUse, partials: seq<string>)
    ensures Held(before + [Open(block, tool)] + Feeds(block, partials), block)
         == Some(PendingCall(tool.id, tool.name, Concat(partials)))
    decreases |partials|
  {
    var start := before + [Open(block, tool)];
    if partials == [] {
      assert start + Feeds(block, partials) == start;
      ActionAppend(before, Open(block, tool));
    } else {
      var n := |partials| - 1;
      FeedsAccumulate(before, block, tool, partials[..n]);
      assert partials == partials[..n] + [partials[n]];
      ConcatAppend(partials[..n], partials[n]);
      assert start + Feeds(block, partials) == (start + Feeds(block, partials[..n])) + [Feed(block, partials[n])];
      ActionAppend(start + Feeds(block, partials[..n]), Feed(block, partials[n]));
    }
  }

  /** Closing a block whose last opening was for a tool hands out exactly that tool's call, with the
      fragments this block received since then, whatever happened to other blocks in between. */
  lemma BlockYieldsItsCall(actions: seq<Action>, block: int, earlier: seq<Action>, tool: ToolUse, partials: seq<string>)
    requires Project(actions, block) == earlier + [Open(block, tool)] + Feeds(block, partials)
    ensures CallsOf(actions, Close(block)) == [PendingCall(tool.id, tool.name, Concat(partials))]
    ensures Held(actions + [Close(block)], block).None?
  {
    HeldByOwnActions(actions, block);
    FeedsAccumulate(earlier, block, tool, partials);
    ActionAppend(actions, Close(block));
  }

  lemma {:induction false} NoCloseNoResult(actions: seq<Action>)
    requires forall i :: 0 <= i < |actions| ==> !actions[i].Close?
    ensures Results(actions) == []
  {
    if actions != [] {
      NoCloseNoResult(actions[..|actions| - 1]);
    }
  }

  // ---- Interleavings ------------------------------------------------------------------------

  /** The blocks closed, in order. */
  function Closes(actions: seq<Action>): seq<int> {
    if actions == [] then []
    else
      var n := |actions| - 1;
      Closes(actions[..n]) + if actions[n].Close? then [actions[n].block] else []
  }

  /** What each close in a list hands out. */
  function Results(actions: seq<Action>): seq<seq<PendingCall>> {
    if actions == [] then []
    else
      var n := |actions| - 1;
      Results(actions[..n]) + if actions[n].Close? then [CallsOf(actions[..n], actions[n])] else []
  }

  function Count(blocks: seq<int>, block: int): (n: nat)
    ensures n > 0 <==> block in blocks
  {
    if blocks == [] then 0
    else
      var n := |blocks| - 1;
      Count(blocks[..n], block) + if blocks[n] == block then 1 else 0
  }

  ghost predicate Enough(closes: seq<int>, actions: seq<Action>) {
    forall b :: Count(closes, b) <= |Results(Project(actions, b))|
  }

  /** Giving each close in turn the next result of its own block. */
  ghost function Weave(closes: seq<int>, actions: seq<Action>): seq<PendingCall>
    requires Enough(closes, actions)
  {
    if closes == [] then []
    else
      var n := |closes| - 1;
      var b := closes[n];
      assert Enough(closes[..n], actions) by { EnoughPrefix(closes, actions); }
      assert Count(closes, b) <= |Results(Project(actions, b))|;
      Weave(closes[..n], actions) + Results(Project(actions, b))[Count(closes[..n], b)]
  }

  lemma EnoughPrefix(closes: seq<int>, actions: seq<Action>)
    requires closes != [] && Enough(closes, actions)
    ensures Enough(closes[..|closes| - 1], actions)
  {
  }

  lemma ProjectAppend(actions: seq<Action>, action: Action, block: int)
    ensures Project(actions + [action], block) ==
      if action.block == block then Project(actions, block) + [action] else Project(actions, block)
    ensures Closes(actions + [action]) == if action.Close? then Closes(actions) + [action.block] else Closes(actions)
    ensures Results(actions + [action]) ==
      if action.Close? then Results(actions) + [CallsOf(actions, action)] else Results(actions)
  {
  }

  lemma {:induction false} OneResultPerClose(actions: seq<Action>, block: int)
    ensures |Results(Project(actions, block))| == Count(Closes(actions), block)
  {
    if actions != [] {
      var n := |actions| - 1;
      var rest, last := actions[..n], actions[n];
      assert actions == rest + [last];
      OneResultPerClose(rest, block);
      ProjectAppend(rest, last, block);
      ProjectAppend(Project(rest, block), last, block);
      assert (Closes(rest) + [last.block])[..|Closes(rest)|] == Closes(rest);
    }
  }

  lemma {:induction false} WeaveAppend(closes: seq<int>, actions: seq<Action>, action: Action)
    requires Enough(closes, actions)
    ensures Enough(closes, actions + [action])
    ensures Weave(closes, actions + [action]) == Weave(closes, actions)
    decreases |closes|
  {
    var more := actions + [action];
    forall b
      ensures Results(Project(actions, b)) <= Results(Project(more, b))
      ensures Count(closes, b) <= |Results(Project(more, b))|
    {
      ProjectAppend(actions, action, b);
      ProjectAppend(Project(actions, b), action, b);
    }
    if closes != [] {
      var n := |closes| - 1;
      EnoughPrefix(closes, actions);
      EnoughPrefix(closes, more);
      WeaveAppend(closes[..n], actions, action);
      assert Results(Project(actions, closes[n])) <= Results(Project(more, closes[n]));
      assert Count(closes, closes[n]) <= |Results(Project(actions, closes[n]))|;
    }
  }

  /** A close takes the latest result of its block. */
  lemma ResultOfClose(rest: seq<Action>, block: int)
    ensures |Results(Project(rest + [Close(block)], block))| == Count(Closes(rest), block) + 1
    ensures Results(Project(rest + [Close(block)], block))[Count(Closes(rest), block)] == CallsOf(rest, Close(block))
  {
    OneResultPerClose(rest, block);
    HeldByOwnActions(rest, block);
    ProjectAppend(rest, Close(block), block);
    ProjectAppend(Project(rest, block), Close(block), block);
  }

  lemma EnoughForCloses(actions: seq<Action>)
    ensures Enough(Closes(actions), actions)
  {
    forall b ensures Count(Closes(actions), b) <= |Results(Project(actions, b))| {
      OneResultPerClose(actions, b);
    }
  }

  lemma WeaveClose(rest: seq<Action>, block: int)
    requires Enough(Closes(rest), rest) && Enough(Closes(rest) + [block], rest + [Close(block)])
    ensures Weave(Closes(rest) + [block], rest + [Close(block)])
         == Weave(Closes(rest), rest) + CallsOf(rest, Close(block))
  {
    var closes, actions := Closes(rest) + [block], rest + [Close(block)];
    assert closes[..|closes| - 1] == Closes(rest);
    WeaveAppend(Closes(rest), rest, Close(block));
    ResultOfClose(rest, block);
  }

  /** The calls are the closes, each with the result its own block gives it. */
  lemma {:induction false} CallsAreWoven(actions: seq<Action>)
    ensures Enough(Closes(actions), actions) && Calls(actions) == Weave(Closes(actions), actions)
    decreases |actions|
  {
    EnoughForCloses(actions);
    if actions != [] {
      var rest, last := actions[..|actions| - 1], actions[|actions| - 1];
      assert actions == rest + [last];
      CallsAreWoven(rest);
      ActionAppend(rest, last);
      ProjectAppend(rest, last, last.block);
      if last.Close? {
        WeaveClose(rest, last.block);
      } else {
        WeaveAppend(Closes(rest), rest, last);
      }
    }
  }

  lemma {:induction false} WeaveByBlocks(closes: seq<int>, p: seq<Action>, q: seq<Action>)
    requires forall b :: Project(p, b) == Project(q, b)
    requires Enough(closes, p) && Enough(closes, q)
    ensures Weave(closes, p) == Weave(closes, q)
    decreases |closes|
  {
    if closes != [] {
      EnoughPrefix(closes, p);
      EnoughPrefix(closes, q);
      WeaveByBlocks(closes[..|closes| - 1], p, q);
    }
  }

  /** Two interleavings of the same blocks that close them in the same order hand out the same calls. */
  lemma InterleavingIrrelevant(p: seq<Action>, q: seq<Action>)
    requires forall b :: Project(p, b) == Project(q, b)
    requires Closes(p) == Closes(q)
    ensures Calls(p) == Calls(q)
  {
    CallsAreWoven(p);
    CallsAreWoven(q);
    WeaveByBlocks(Closes(p), p, q);
  }

  // ---- Whole blocks ----------------------------------------------------------------------------

  /** What a block received: all fragments of its feeds. */
  function Partials(actions: seq<Action>): string {
    if actions == [] then ""
    else
      var n := |actions| - 1;
      Partials(actions[..n]) + if actions[n].Feed? then actions[n].partial else ""
  }

  /** The actions of one block that is not closed, and is opened for a tool at its start or not at all. */
  ghost predicate IsUnderWay(own: seq<Action>, block: int) {
    && (forall i :: 0 <= i < |own| ==> own[i].block == block && !own[i].Close?)
    && (forall i :: 0 < i < |own| ==> !own[i].Open?)
  }

  /** The actions of one block that is closed once, at its end. */
  ghost predicate IsWhole(own: seq<Action>, block: int) {
    own != [] && own[|own| - 1] == Close(block) && IsUnderWay(own[..|own| - 1], block)
  }

  /** The call for a tool, if any, with its argument text. */
  function CallFor(tool: Option<ToolUse>, args: string): Option<PendingCall> {
    match tool
    case Some(t) => Some(PendingCall(t.id, t.name, args))
    case None => None
  }

  function ToolOf(own: seq<Action>): Option<ToolUse> {
    if own != [] && own[0].Open? then Some(own[0].tool) else None
  }

  /** The call that a block makes, if it was opened for a tool: all its fragments, in order. */
  function CallOfBlock(own: seq<Action>): seq<PendingCall> {
    var call := CallFor(ToolOf(own), Partials(own));
    if call.Some? then [call.value] else []
  }

  lemma PartialsAppend(actions: seq<Action>, action: Action)
    ensures action.Feed? ==> Partials(actions + [action]) == Partials(actions) + action.partial
    ensures !action.Feed? ==> Partials(actions + [action]) == Partials(actions)
  {
  }

  lemma {:induction false} HeldUnderWay(own: seq<Action>, block: int)
    requires IsUnderWay(own, block)
    ensures Held(own, block) == CallFor(ToolOf(own), Partials(own))
  {
    if own != [] {
      var rest, last := own[..|own| - 1], own[|own| - 1];
      assert own == rest + [last];
      HeldUnderWay(rest, block);
      ActionAppend(rest, last);
      PartialsAppend(rest, last);
    }
  }

  lemma ResultOfWhole(rest: seq<Action>, block: int)
    requires IsUnderWay(rest, block)
    ensures Results(rest + [Close(block)]) == [CallOfBlock(rest + [Close(block)])]
  {
    HeldUnderWay(rest, block);
    NoCloseNoResult(rest);
    ProjectAppend(rest, Close(block), block);
    PartialsAppend(rest, Close(block));
  }

  /** The calls of blocks, in the order given. */
  function CallsInOrder(closes: seq<int>, actions: seq<Action>): seq<PendingCall> {
    if closes == [] then []
    else
      var n := |closes| - 1;
      CallsInOrder(closes[..n], actions) + CallOfBlock(Project(actions, closes[n]))
  }

  lemma {:induction false} WeaveWhole(closes: seq<int>, actions: seq<Action>)
    requires Enough(closes, actions)
    requires forall b :: b in closes ==> IsWhole(Project(actions, b), b)
    ensures Weave(closes, actions) == CallsInOrder(closes, actions) && Distinct(closes)
    decreases |closes|
  {
    if closes != [] {
      var rest, b := closes[..|closes| - 1], closes[|closes| - 1];
      assert closes == rest + [b];
      EnoughPrefix(closes, actions);
      WeaveWhole(rest, actions);
      OnlyResult(Project(actions, b), b);
      assert Count(closes, b) <= |Results(Project(actions, b))|;
    }
  }

  lemma OnlyResult(own: seq<Action>, block: int)
    requires IsWhole(own, block)
    ensures Results(own) == [CallOfBlock(own)]
  {
    assert own == own[..|own| - 1] + [Close(block)];
    ResultOfWhole(own[..|own| - 1], block);
  }

  /** However blocks are interleaved: if each block that closes is whole, then each tool block yields
      exactly one call, made of its own fragments, in the order in which the blocks close. */
  lemma WholeBlocksYieldTheirCalls(actions: seq<Action>)
    requires forall b :: b in Closes(actions) ==> IsWhole(Project(actions, b), b)
    ensures Distinct(Closes(actions))
    ensures Calls(actions) == CallsInOrder(Closes(actions), actions)
  {
    CallsAreWoven(actions);
    WeaveWhole(Closes(actions), actions);
  }

  // ---- Whole blocks, as events that name their block ---------------------------------------------

  /** The events that name a block. */
  function Own(events: seq<Event>, block: int): (own: seq<Event>)
    ensures forall i :: 0 <= i < |own| ==> own[i].Names(block)
  {
    if events == [] then []
    else
      var n := |events| - 1;
      Own(events[..n], block) + if events[n].Names(block) then [events[n]] else []
  }

  /** The blocks stopped, in order. */
  function Stops(events: seq<Event>): seq<int> {
    if events == [] then []
    else
      var n := |events| - 1;
      Stops(events[..n]) + if events[n].BlockStop? && events[n].index.Some? then [events[n].index.value] else []
  }

  ghost predicate AllNamed(events: seq<Event>) {
    forall e :: e in events && e.NamesBlock() ==> e.index.Some?
  }

  /** What an event that names its block, if any, does to it. */
  function ActionOfOne(event: Event): Option<Action>
    requires event.NamesBlock() ==> event.index.Some?
  {
    if event.NamesBlock() then ActionOf(event, event.index.value) else None
  }

  lemma ActionOfNamed(rest: seq<Event>, last: Event)
    requires last.NamesBlock() ==> last.index.Some?
    ensures ActionOfOne(last).Some? ==> Actions(rest + [last]) == Actions(rest) + [ActionOfOne(last).value]
    ensures ActionOfOne(last).None? ==> Actions(rest + [last]) == Actions(rest)
  {
  }

  lemma OwnAppend(events: seq<Event>, event: Event, block: int)
    ensures Own(events + [event], block) ==
      if event.Names(block) then Own(events, block) + [event] else Own(events, block)
  {
    assert Own(events, block) + [] == Own(events, block);
  }

  /** An event that names its block adds to that block's actions and to no other's. */
  lemma ActionOfBlock(rest: seq<Event>, last: Event, block: int)
    requires last.NamesBlock() ==> last.index.Some?
    ensures Project(Actions(rest + [last]), block) ==
      if last.Names(block) && ActionOfOne(last).Some? then Project(Actions(rest), block) + [ActionOfOne(last).value]
      else Project(Actions(rest), block)
    ensures Closes(Actions(rest + [last])) ==
      if last.BlockStop? then Closes(Actions(rest)) + [last.index.value] else Closes(Actions(rest))
  {
    ActionOfNamed(rest, last);
    if ActionOfOne(last).Some? {
      ProjectAppend(Actions(rest), ActionOfOne(last).value, block);
    }
  }

  lemma {:induction false} ActionsByBlock(events: seq<Event>, block: int)
    requires AllNamed(events)
    ensures Project(Actions(events), block) == Actions(Own(events, block))
  {
    if events != [] {
      var rest, last := events[..|events| - 1], events[|events| - 1];
      assert events == rest + [last];
      ActionsByBlock(rest, block);
      ActionOfBlock(rest, last, block);
      OwnAppend(rest, last, block);
      ActionOfNamed(Own(rest, block), last);
    }
  }

  lemma {:induction false} StopsAreCloses(events: seq<Event>)
    requires AllNamed(events)
    ensures Closes(Actions(events)) == Stops(events)
  {
    if events != [] {
      var rest, last := events[..|events| - 1], events[|events| - 1];
      assert events == rest + [last];
      StopsAreCloses(rest);
      ActionOfBlock(rest, last, 0);
    }
  }

  /** The events of one block so far: its start, then deltas of any kind. */
  ghost predicate IsStarted(own: seq<Event>, block: int) {
    && own != [] && own[0].BlockStart?
    && (forall i :: 0 <= i < |own| ==> own[i].Names(block))
    && (forall i :: 0 < i < |own| ==> own[i].IsDelta())
  }

  /** The events of one block in a well-formed stream: these, and then its stop. */
  ghost predicate IsWholeBlock(own: seq<Event>, block: int) {
    own != [] && own[|own| - 1] == BlockStop(Some(block)) && IsStarted(own[..|own| - 1], block)
  }

  /** All argument text a block received. */
  function Received(events: seq<Event>): string {
    if events == [] then ""
    else
      var n := |events| - 1;
      Received(events[..n]) + if events[n].JsonDelta? then events[n].partial else ""
  }

  /** The call of a block, if it was started for a tool. */
  function CallOfEvents(own: seq<Event>): seq<PendingCall> {
    var call := CallFor(if own != [] && own[0].BlockStart? then own[0].tool else None, Received(own));
    if call.Some? then [call.value] else []
  }

  function CallsOfBlocks(stops: seq<int>, events: seq<Event>): seq<PendingCall> {
    if stops == [] then []
    else
      var n := |stops| - 1;
      CallsOfBlocks(stops[..n], events) + CallOfEvents(Own(events, stops[n]))
  }

  /** What the events of a started block amount to, as actions. */
  ghost predicate Amounts(actions: seq<Action>, block: int, tool: Option<ToolUse>, args: string) {
    IsUnderWay(actions, block) && ToolOf(actions) == tool && Partials(actions) == args
  }

  lemma FeedGoesOn(actions: seq<Action>, block: int, tool: Option<ToolUse>, args: string, partial: string)
    requires Amounts(actions, block, tool, args)
    ensures Amounts(actions + [Feed(block, partial)], block, tool, args + partial)
  {
    PartialsAppend(actions, Feed(block, partial));
  }

  lemma StopEnds(actions: seq<Action>, block: int, tool: Option<ToolUse>, args: string)
    requires Amounts(actions, block, tool, args)
    ensures IsWhole(actions + [Close(block)], block)
    ensures ToolOf(actions + [Close(block)]) == tool && Partials(actions + [Close(block)]) == args
  {
    PartialsAppend(actions, Close(block));
    assert (actions + [Close(block)])[..|actions|] == actions;
  }

  lemma ReceivedAppend(events: seq<Event>, event: Event)
    ensures event.JsonDelta? ==> Received(events + [event]) == Received(events) + event.partial
    ensures !event.JsonDelta? ==> Received(events + [event]) == Received(events)
  {
  }

  lemma NothingBegun(block: int)
    ensures Amounts([], block, None, "")
  {
  }

  lemma OpenBegins(block: int, tool: ToolUse)
    ensures Amounts([Open(block, tool)], block, Some(tool), "")
  {
    PartialsAppend([], Open(block, tool));
    assert [] + [Open(block, tool)] == [Open(block, tool)];
  }

  lemma ActionsOfStart(start: Event, block: int)
    requires start.BlockStart? && start.index == Some(block)
    ensures Actions([start]) == if start.tool.Some? then [Open(block, start.tool.value)] else []
  {
    assert [start] == [] + [start];
    ActionOfNamed([], start);
  }

  lemma BlockStarts(start: Event, block: int)
    requires start.BlockStart? && start.index == Some(block)
    ensures Amounts(Actions([start]), block, start.tool, "") && Received([start]) == ""
  {
    ActionsOfStart(start, block);
    match start.tool {
      case Some(tool) => OpenBegins(block, tool);
      case None => NothingBegun(block);
    }
    ReceivedAppend([], start);
    assert [] + [start] == [start];
  }

  lemma BlockGoesOn(own: seq<Event>, delta: Event, block: int, tool: Option<ToolUse>)
    requires Amounts(Actions(own), block, tool, Received(own))
    requires delta.IsDelta() && delta.index == Some(block)
    ensures Amounts(Actions(own + [delta]), block, tool, Received(own + [delta]))
  {
    ActionOfNamed(own, delta);
    ReceivedAppend(own, delta);
    if delta.JsonDelta? {
      FeedGoesOn(Actions(own), block, tool, Received(own), delta.partial);
    }
  }

  lemma {:induction false} BlockUnderWay(own: seq<Event>, block: int)
    requires IsStarted(own, block)
    ensures Amounts(Actions(own), block, own[0].tool, Received(own))
  {
    var n := |own| - 1;
    if n == 0 {
      assert own == [own[0]];
      BlockStarts(own[0], block);
    } else {
      BlockUnderWay(own[..n], block);
      BlockGoesOn(own[..n], own[n], block, own[0].tool);
      assert own == own[..n] + [own[n]];
    }
  }

  lemma BlockStops(own: seq<Event>, block: int)
    requires IsStarted(own, block)
    ensures IsWhole(Actions(own + [BlockStop(Some(block))]), block)
    ensures CallOfBlock(Actions(own + [BlockStop(Some(block))])) == CallOfEvents(own + [BlockStop(Some(block))])
  {
    BlockUnderWay(own, block);
    ActionOfNamed(own, BlockStop(Some(block)));
    ReceivedAppend(own, BlockStop(Some(block)));
    StopEnds(Actions(own), block, own[0].tool, Received(own));
  }

  lemma ActionsOfWholeBlock(own: seq<Event>, block: int)
    requires IsWholeBlock(own, block)
    ensures IsWhole(Actions(own), block)
    ensures CallOfBlock(Actions(own)) == CallOfEvents(own)
  {
    BlockStops(own[..|own| - 1], block);
    assert own[..|own| - 1] + [BlockStop(Some(block))] == own;
  }

  // ---- The shape of an answer ------------------------------------------------------------------

  function ToolChunks(chunks: seq<AdapterChunk>): seq<AdapterChunk> {
    if chunks == [] then []
    else
      var n := |chunks| - 1;
      ToolChunks(chunks[..n]) + if chunks[n].ToolCall? then [chunks[n]] else []
  }

  lemma {:induction false} ToolChunksConcat(a: seq<AdapterChunk>, b: seq<AdapterChunk>)
    ensures ToolChunks(a + b) == ToolChunks(a) + ToolChunks(b)
    decreases |b|
  {
    if b == [] {
      assert a + b == a;
    } else {
      var n := |b| - 1;
      ToolChunksConcat(a, b[..n]);
      assert (a + b)[..|a + b| - 1] == a + b[..n];
    }
  }

  lemma CallChunksConcat(a: seq<PendingCall>, b: seq<PendingCall>, arguments: ArgumentParser)
    ensures CallChunks(ParseAll(a + b, arguments))
         == CallChunks(ParseAll(a, arguments)) + CallChunks(ParseAll(b, arguments))
  {
  }

  lemma {:induction false} AllToolChunks(chunks: seq<AdapterChunk>)
    requires forall i :: 0 <= i < |chunks| ==> chunks[i].ToolCall?
    ensures ToolChunks(chunks) == chunks
  {
    if chunks != [] {
      var n := |chunks| - 1;
      AllToolChunks(chunks[..n]);
      assert chunks == chunks[..n] + [chunks[n]];
    }
  }

  /** The tool calls in an answer are the calls of its actions; apart from them and text, an answer
      has the usage totals and the end, once each, and last. */
  lemma {:induction false} AnswerShape(events: seq<Event>, wire: Wire)
    ensures ToolChunks(Output(events, wire)) == CallChunks(ParseAll(Calls(Actions(events)), wire.arguments))
    ensures forall c :: c in Output(events, wire) ==> c.Text? || c.ToolCall?
    decreases |events|
  {
    if events != [] {
      var n := |events| - 1;
      var rest, last := events[..n], events[n];
      assert events == rest + [last];
      AnswerShape(rest, wire);
      EventAppend(rest, last, CurrentBlock(events), wire);
      var action := ActionOf(last, CurrentBlock(events));
      var emitted := Emission(Actions(rest), last, CurrentBlock(events), wire);
      ToolChunksConcat(Output(rest, wire), emitted);
      if action.Some? {
        ActionAppend(Actions(rest), action.value);
        CallChunksConcat(Calls(Actions(rest)), CallsOf(Actions(rest), action.value), wire.arguments);
        AllToolChunks(emitted);
      } else if emitted != [] {
        assert emitted[..0] == [] && ToolChunks([]) == [];
      }
    }
  }

  /** However the blocks of a well-formed stream are interleaved: each tool block yields exactly one call,
      with that block's own fragments, in the order in which the blocks stop. */
  lemma CallsOfWholeBlocks(events: seq<Event>)
    requires AllNamed(events)
    requires forall b :: b in Stops(events) ==> IsWholeBlock(Own(events, b), b)
    ensures Distinct(Stops(events))
    ensures Calls(Actions(events)) == CallsOfBlocks(Stops(events), events)
  {
    StopsAreCloses(events);
    forall b | b in Stops(events)
      ensures IsWhole(Project(Actions(events), b), b)
      ensures CallOfBlock(Project(Actions(events), b)) == CallOfEvents(Own(events, b))
    {
      ActionsByBlock(events, b);
      ActionsOfWholeBlock(Own(events, b), b);
    }
    WholeBlocksYieldTheirCalls(Actions(events));
    SameCalls(Stops(events), events);
  }

  /** These calls are the tool chunks of the whole answer. */
  lemma WholeBlocksAnswer(text: string, wire: Wire, events: seq<Event>)
    requires events == Events(CompleteLines(text), wire) && AllNamed(events)
    requires forall b :: b in Stops(events) ==> IsWholeBlock(Own(events, b), b)
    ensures ToolChunks(Answer(text, wire))
         == CallChunks(ParseAll(CallsOfBlocks(Stops(events), events), wire.arguments))
  {
    CallsOfWholeBlocks(events);
    AnswerShape(events, wire);
    NoToolAtEnd(Output(events, wire), AdapterUsage(InputTokens(events), OutputTokens(events)));
  }

  lemma NoToolAtEnd(body: seq<AdapterChunk>, usage: AdapterUsage)
    ensures ToolChunks(body + [Usage(usage), Done(None)]) == ToolChunks(body)
  {
    var all := body + [Usage(usage), Done(None)];
    assert all[..|body| + 1] == body + [Usage(usage)] && all[..|body| + 1][..|body|] == body;
  }

  lemma {:induction false} SameCalls(blocks: seq<int>, events: seq<Event>)
    requires forall b :: b in blocks ==> CallOfBlock(Project(Actions(events), b)) == CallOfEvents(Own(events, b))
    ensures CallsInOrder(blocks, Actions(events)) == CallsOfBlocks(blocks, events)
    decreases |blocks|
  {
    if blocks != [] {
      assert forall b :: b in blocks[..|blocks| - 1] ==> b in blocks;
      SameCalls(blocks[..|blocks| - 1], events);
    }
  }

  // ---- From the text to the events ------------------------------------------------------------------

  /** Whatever white space is around it and whichever line ending follows, the payload of a data line reaches
      the JSON parser as it is, and its event is the only one of the line. */
  lemma DataLineReachesParser(pre: string, gap: string, p: string, post: string, wire: Wire)
    requires IsBlank(pre) && IsBlank(gap) && IsBare(p) && IsBlank(post)
    ensures Events(CompleteLines(pre + ("data: " + gap + p) + post + "\n"), wire) ==
      match wire.event(p)
      case Some(event) => [event]
      case None => []
  {
    PayloadOfDataLine(gap, p);
    ReadTrimmed(pre, "data: " + gap + p, post);
    EventsOfLine("data: " + gap + p, wire);
  }

  /** Any other line has no event. */
  lemma OtherLineHasNoEvent(pre: string, core: string, post: string, wire: Wire)
    requires IsBlank(pre) && IsBare(core) && IsBlank(post)
    requires |core| < 6 || core[..6] != "data: "
    ensures Events(CompleteLines(pre + core + post + "\n"), wire) == []
  {
    NoPayload(core);
    ReadTrimmed(pre, core, post);
    EventsOfLine(core, wire);
  }

  lemma BlankLineHasNoEvent(blank: string, wire: Wire)
    requires IsBlank(blank)
    ensures Events(CompleteLines(blank + "\n"), wire) == []
  {
    ReadBlank(blank);
    EventsOfLine("", wire);
  }

  lemma EventsOfLine(line: string, wire: Wire)
    ensures Events([line], wire) == if EventOf(line, wire).Some? then [EventOf(line, wire).value] else []
  {
    LineAppend([], line, wire);
    assert [] + [line] == [line];
  }

  lemma {:induction false} EventsConcat(a: seq<string>, b: seq<string>, wire: Wire)
    ensures Events(a + b, wire) == Events(a, wire) + Events(b, wire)
    decreases |b|
  {
    if b == [] {
      assert a + b == a;
    } else {
      var n := |b| - 1;
      EventsConcat(a, b[..n], wire);
      assert b == b[..n] + [b[n]] && a + b == (a + b[..n]) + [b[n]];
      LineAppend(a + b[..n], b[n], wire);
      LineAppend(b[..n], b[n], wire);
    }
  }

  /** The events of a text are those of its lines, one after the other. */
  lemma EventsInARow(a: string, b: string, wire: Wire)
    requires Tail(a) == ""
    ensures Events(CompleteLines(a + b), wire) == Events(CompleteLines(a), wire) + Events(CompleteLines(b), wire)
  {
    CarryNothing(a, b);
    EventsConcat(CompleteLines(a), CompleteLines(b), wire);
  }

  lemma {:induction false} StreamedEvents(payloads: seq<string>, events: seq<Event>, wire: Wire)
    requires |events| == |payloads| && forall k :: 0 <= k < |events| ==> IsBare(payloads[k])
    requires forall k :: 0 <= k < |events| ==> wire.event(payloads[k]) == Some(events[k])
    ensures Events(CompleteLines(DataText(payloads)), wire) == events
  {
    if payloads != [] {
      var n := |payloads| - 1;
      StreamedEvents(payloads[..n], events[..n], wire);
      OneDataLineMore(payloads[..n], payloads[n]);
      PayloadOfDataLine("", payloads[n]);
      LineAppend(CompleteLines(DataText(payloads[..n])), "data: " + "" + payloads[n], wire);
      assert payloads == payloads[..n] + [payloads[n]] && events == events[..n] + [events[n]];
    }
  }

  function TextEvents(texts: seq<string>): (events: seq<Event>)
    ensures |events| == |texts| && forall k :: 0 <= k < |texts| ==> events[k] == TextDelta(Some(0), texts[k])
  {
    seq(|texts|, k requires 0 <= k < |texts| => TextDelta(Some(0), texts[k]))
  }

  lemma OneTextMore(events: seq<Event>, text: string, wire: Wire)
    requires text != ""
    ensures Output(events + [TextDelta(Some(0), text)], wire) == Output(events, wire) + [Text(text)]
    ensures InputTokens(events + [TextDelta(Some(0), text)]) == InputTokens(events)
    ensures OutputTokens(events + [TextDelta(Some(0), text)]) == OutputTokens(events)
  {
    EventAppend(events, TextDelta(Some(0), text), 0, wire);
  }

  lemma TextsAppend(texts: seq<string>, text: string)
    ensures TextEvents(texts + [text]) == TextEvents(texts) + [TextDelta(Some(0), text)]
    ensures TextsAsChunks(texts + [text]) == TextsAsChunks(texts) + [Text(text)]
  {
  }

  lemma {:induction false} OutputOfTexts(texts: seq<string>, wire: Wire)
    requires forall k :: 0 <= k < |texts| ==> texts[k] != ""
    ensures Output(TextEvents(texts), wire) == TextsAsChunks(texts)
    ensures InputTokens(TextEvents(texts)) == 0 && OutputTokens(TextEvents(texts)) == 0
  {
    if texts != [] {
      var rest, last := texts[..|texts| - 1], texts[|texts| - 1];
      OutputOfTexts(rest, wire);
      OneTextMore(TextEvents(rest), last, wire);
      TextsAppend(rest, last);
      assert texts == rest + [last];
    }
  }

  lemma AnswerOf(text: string, events: seq<Event>, wire: Wire)
    requires Events(CompleteLines(text), wire) == events
    ensures Answer(text, wire) ==
      Output(events, wire) + [Usage(AdapterUsage(InputTokens(events), OutputTokens(events))), Done(None)]
  {
  }

  /** A stream of text: the answer is the text of each payload in turn, and the totals. */
  lemma StreamedText(payloads: seq<string>, texts: seq<string>, wire: Wire)
    requires |texts| == |payloads| && forall k :: 0 <= k < |texts| ==> IsBare(payloads[k]) && texts[k] != ""
    requires forall k :: 0 <= k < |texts| ==> wire.event(payloads[k]) == Some(TextDelta(Some(0), texts[k]))
    ensures Answer(DataText(payloads), wire) ==
      TextsAsChunks(texts) + [Usage(AdapterUsage(0, 0)), Done(None)]
  {
    StreamedEvents(payloads, TextEvents(texts), wire);
    OutputOfTexts(texts, wire);
    AnswerOf(DataText(payloads), TextEvents(texts), wire);
  }

  /** The events of a tool block before its stop. */
  function ToolEvents(tool: ToolUse, partials: seq<string>): seq<Event> {
    if partials == [] then [BlockStart(Some(0), Some(tool))]
    else ToolEvents(tool, partials[..|partials| - 1]) + [JsonDelta(Some(0), partials[|partials| - 1])]
  }

  lemma ToolStarts(tool: ToolUse, wire: Wire)
    ensures Actions([BlockStart(Some(0), Some(tool))]) == [Open(0, tool)]
    ensures Output([BlockStart(Some(0), Some(tool))], wire) == []
    ensures InputTokens([BlockStart(Some(0), Some(tool))]) == OutputTokens([BlockStart(Some(0), Some(tool))]) == 0
  {
    EventAppend([], BlockStart(Some(0), Some(tool)), 0, wire);
    assert [] + [BlockStart(Some(0), Some(tool))] == [BlockStart(Some(0), Some(tool))];
    assert CallsOf([], Open(0, tool)) == [];
  }

  lemma {:induction false} ToolEventsSoFar(tool: ToolUse, partials: seq<string>, wire: Wire)
    ensures Actions(ToolEvents(tool, partials)) == [Open(0, tool)] + Feeds(0, partials)
    ensures Output(ToolEvents(tool, partials), wire) == []
    ensures InputTokens(ToolEvents(tool, partials)) == OutputTokens(ToolEvents(tool, partials)) == 0
    decreases |partials|
  {
    if partials == [] {
      ToolStarts(tool, wire);
      assert [Open(0, tool)] + Feeds(0, partials) == [Open(0, tool)];
    } else {
      var n := |partials| - 1;
      ToolEventsSoFar(tool, partials[..n], wire);
      EventAppend(ToolEvents(tool, partials[..n]), JsonDelta(Some(0), partials[n]), 0, wire);
      assert Feeds(0, partials) == Feeds(0, partials[..n]) + [Feed(0, partials[n])];
      Regroup([Open(0, tool)], Feeds(0, partials[..n]), [Feed(0, partials[n])]);
    }
  }

  lemma ToolStops(tool: ToolUse, partials: seq<string>, json: Json, wire: Wire)
    requires wire.arguments.parse(Concat(partials)) == Some(json)
    ensures Output(ToolEvents(tool, partials) + [BlockStop(Some(0))], wire)
         == [ToolCall(AdapterToolCall(tool.id, tool.name, json))]
    ensures InputTokens(ToolEvents(tool, partials) + [BlockStop(Some(0))]) == 0
    ensures OutputTokens(ToolEvents(tool, partials) + [BlockStop(Some(0))]) == 0
  {
    var call := PendingCall(tool.id, tool.name, Concat(partials));
    ToolEventsSoFar(tool, partials, wire);
    EventAppend(ToolEvents(tool, partials), BlockStop(Some(0)), 0, wire);
    FeedsAccumulate([], 0, tool, partials);
    assert [] + [Open(0, tool)] + Feeds(0, partials) == [Open(0, tool)] + Feeds(0, partials);
    assert CallsOf([Open(0, tool)] + Feeds(0, partials), Close(0)) == [call];
    EmittedCall(call, wire.arguments, json);
  }

  /** A stream of one tool call: its argument text is joined, parsed and emitted when its block stops. */
  lemma StreamedTool(payloads: seq<string>, tool: ToolUse, partials: seq<string>, json: Json, wire: Wire)
    requires |payloads| == |partials| + 2 && forall k :: 0 <= k < |payloads| ==> IsBare(payloads[k])
    requires wire.event(payloads[0]) == Some(BlockStart(Some(0), Some(tool)))
    requires forall k :: 0 <= k < |partials| ==> wire.event(payloads[k + 1]) == Some(JsonDelta(Some(0), partials[k]))
    requires wire.event(payloads[|partials| + 1]) == Some(BlockStop(Some(0)))
    requires wire.arguments.parse(Concat(partials)) == Some(json)
    ensures Answer(DataText(payloads), wire) ==
      [ToolCall(AdapterToolCall(tool.id, tool.name, json)), Usage(AdapterUsage(0, 0)), Done(None)]
  {
    var events := ToolEvents(tool, partials) + [BlockStop(Some(0))];
    ToolEventsMatch(payloads, tool, partials, wire);
    StreamedEvents(payloads, events, wire);
    ToolStops(tool, partials, json, wire);
    AnswerOf(DataText(payloads), events, wire);
  }

  lemma ToolEventsMatch(payloads: seq<string>, tool: ToolUse, partials: seq<string>, wire: Wire)
    requires |payloads| == |partials| + 2
    requires wire.event(payloads[0]) == Some(BlockStart(Some(0), Some(tool)))
    requires forall k :: 0 <= k < |partials| ==> wire.event(payloads[k + 1]) == Some(JsonDelta(Some(0), partials[k]))
    requires wire.event(payloads[|partials| + 1]) == Some(BlockStop(Some(0)))
    ensures |ToolEvents(tool, partials)| == |partials| + 1
    ensures forall k :: 0 <= k < |payloads| ==>
      wire.event(payloads[k]) == Some((ToolEvents(tool, partials) + [BlockStop(Some(0))])[k])
  {
    ToolEventAt(tool, partials, 0);
    forall k | 0 <= k < |payloads|
      ensures wire.event(payloads[k]) == Some((ToolEvents(tool, partials) + [BlockStop(Some(0))])[k])
    {
      ToolEventAt(tool, partials, k);
      if 0 < k <= |partials| {
        assert payloads[k] == payloads[(k - 1) + 1];
      }
    }
  }

  lemma {:induction false} ToolEventAt(tool: ToolUse, partials: seq<string>, k: nat)
    ensures |ToolEvents(tool, partials)| == |partials| + 1
    ensures k == 0 ==> ToolEvents(tool, partials)[k] == BlockStart(Some(0), Some(tool))
    ensures 0 < k <= |partials| ==> ToolEvents(tool, partials)[k] == JsonDelta(Some(0), partials[k - 1])
    decreases |partials|
  {
    if partials != [] {
      ToolEventAt(tool, partials[..|partials| - 1], k);
    }
  }
}
