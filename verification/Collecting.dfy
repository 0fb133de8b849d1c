/** Collecting the stream of either adapter: from the text received to one response. */
module Collecting {
  import opened AdapterTypes
  import opened Sequences
  import opened StreamResult
  import opened Wrappers
  import Open = OpenAiStream
  import Claude = AnthropicStream
  import Lines

  // ---- OpenAI-compatible streams ---------------------------------------------------

  lemma {:induction false} SummaryOfText(events: seq<Open.Item>)
    ensures var chunks := Open.TextChunks(events);
      AllText(chunks) == Open.Texts(events) && AllCalls(chunks) == [] &&
      FinalUsage(chunks) == NO_USAGE && FinalDone(chunks) == None && FirstFailure(chunks) == None
  {
    if events != [] {
      var n := |events| - 1;
      SummaryOfText(events[..n]);
      var earlier := Open.TextChunks(events[..n]);
      if events[n].Parsed? && events[n].event.content != "" {
        SummaryAppend(earlier, Text(events[n].event.content));
      } else {
        assert earlier + [] == earlier;
        assert Open.Texts(events[..n]) + "" == Open.Texts(events[..n]);
      }
    }
  }

  /** The tool calls of a response, one per call index in order of first appearance. */
  function OpenCalls(events: seq<Open.Item>, wire: Open.Wire): seq<AdapterToolCall> {
    ParseAll(Open.Calls(Open.Resolve(Open.Fragments(events))), wire.arguments)
  }

  /** Collecting a stream whose one [DONE] comes last: all its text, every call reassembled, its last usage. */
  lemma {:induction false} CollectOpenAi(text: string, wire: Open.Wire, events: seq<Open.Item>)
    requires Open.Items(Lines.CompleteLines(text), wire) == events + [Open.DoneMark]
    requires Open.DoneMark !in events
    ensures Gather(Open.Answer(text, wire)) == Ok(Collected(
      Open.Texts(events),
      OpenCalls(events, wire),
      (match Open.LastUsage(events) case Some(usage) => usage case None => NO_USAGE),
      None))
  {
    var calls := OpenCalls(events, wire);
    SummaryOfText(events);
    SummaryOfCalls(Open.TextChunks(events), calls);
    assert [] + calls == calls;
    GatherEnd(Open.TextChunks(events) + CallChunks(calls), Open.LastUsage(events));
    OneDoneAnswer(text, wire, events);
  }

  lemma OneDoneAnswer(text: string, wire: Open.Wire, events: seq<Open.Item>)
    requires Open.Items(Lines.CompleteLines(text), wire) == events + [Open.DoneMark]
    requires Open.DoneMark !in events
    ensures Open.Answer(text, wire) ==
      Open.TextChunks(events) + CallChunks(OpenCalls(events, wire)) + Ending(Open.LastUsage(events))
  {
    var body := Open.TextChunks(events) + CallChunks(OpenCalls(events, wire));
    Open.OneDoneOutput(events, wire);
    Regroup(body, Open.UsageChunks(events), [Done(None)]);
    UsageThenDone(events);
  }

  lemma UsageThenDone(events: seq<Open.Item>)
    ensures Open.UsageChunks(events) + [Done(None)] == Ending(Open.LastUsage(events))
  {
  }

  // ---- Anthropic streams --------------------------------------------------------------

  /** The tool calls of a response, in the order their blocks were closed. */
  function ClaudeCalls(events: seq<Claude.Event>, wire: Claude.Wire): seq<AdapterToolCall> {
    ParseAll(Claude.Calls(Claude.Actions(events)), wire.arguments)
  }

  function ClaudeText(events: seq<Claude.Event>): string {
    if events == [] then ""
    else
      var n := |events| - 1;
      ClaudeText(events[..n]) + if events[n].TextDelta? then events[n].text else ""
  }

  /** The chunks of the body amount to this text and these calls, and to nothing else. */
  ghost predicate Amounts(chunks: seq<AdapterChunk>, text: string, calls: seq<AdapterToolCall>) {
    && AllText(chunks) == text && AllCalls(chunks) == calls
    && FinalUsage(chunks) == NO_USAGE && FinalDone(chunks) == None && FirstFailure(chunks) == None
  }

  lemma ClaudeTextAppend(rest: seq<Claude.Event>, last: Claude.Event)
    ensures last.TextDelta? ==> ClaudeText(rest + [last]) == ClaudeText(rest) + last.text
    ensures !last.TextDelta? ==> ClaudeText(rest + [last]) == ClaudeText(rest)
  {
  }

  lemma ClaudeCallsAppend(rest: seq<Claude.Event>, last: Claude.Event, action: Claude.Action, wire: Claude.Wire)
    requires Claude.Actions(rest + [last]) == Claude.Actions(rest) + [action]
    ensures ClaudeCalls(rest + [last], wire) ==
      ClaudeCalls(rest, wire) + ParseAll(Claude.CallsOf(Claude.Actions(rest), action), wire.arguments)
  {
    Claude.ActionAppend(Claude.Actions(rest), action);
  }

  lemma OneMoreEvent(rest: seq<Claude.Event>, last: Claude.Event, wire: Claude.Wire)
    requires Amounts(Claude.Output(rest, wire), ClaudeText(rest), ClaudeCalls(rest, wire))
    ensures Amounts(Claude.Output(rest + [last], wire), ClaudeText(rest + [last]), ClaudeCalls(rest + [last], wire))
  {
    var block := Claude.CurrentBlock(rest + [last]);
    var before, action := Claude.Output(rest, wire), Claude.ActionOf(last, block);
    Claude.EventAppend(rest, last, block, wire);
    ClaudeTextAppend(rest, last);
    if action.Some? {
      ClaudeCallsAppend(rest, last, action.value, wire);
      SummaryOfCalls(before, ParseAll(Claude.CallsOf(Claude.Actions(rest), action.value), wire.arguments));
    } else if last.TextDelta? && last.text != "" {
      SummaryAppend(before, Text(last.text));
    } else {
      assert before + [] == before;
    }
  }

  lemma {:induction false} SummaryOfOutput(events: seq<Claude.Event>, wire: Claude.Wire)
    ensures Amounts(Claude.Output(events, wire), ClaudeText(events), ClaudeCalls(events, wire))
    decreases |events|
  {
    if events != [] {
      var rest, last := events[..|events| - 1], events[|events| - 1];
      assert events == rest + [last];
      SummaryOfOutput(rest, wire);
      OneMoreEvent(rest, last, wire);
    }
  }

  /** Collecting an Anthropic stream always succeeds: its text, the calls of its blocks, the usage totals. */
  lemma CollectAnthropic(text: string, wire: Claude.Wire)
    ensures var events := Claude.Events(Lines.CompleteLines(text), wire);
      Gather(Claude.Answer(text, wire)) == Ok(Collected(
        ClaudeText(events),
        ClaudeCalls(events, wire),
        AdapterUsage(Claude.InputTokens(events), Claude.OutputTokens(events)),
        None))
  {
    var events := Claude.Events(Lines.CompleteLines(text), wire);
    SummaryOfOutput(events, wire);
    GatherEnd(Claude.Output(events, wire),
              Some(AdapterUsage(Claude.InputTokens(events), Claude.OutputTokens(events))));
  }

  /** Collecting a stream of whole blocks: one call for each tool block, in the order in which they stop. */
  lemma CollectWholeBlocks(text: string, wire: Claude.Wire, events: seq<Claude.Event>)
    requires events == Claude.Events(Lines.CompleteLines(text), wire) && Claude.AllNamed(events)
    requires forall b :: b in Claude.Stops(events) ==> Claude.IsWholeBlock(Claude.Own(events, b), b)
    ensures Gather(Claude.Answer(text, wire)) == Ok(Collected(
      ClaudeText(events),
      ParseAll(Claude.CallsOfBlocks(Claude.Stops(events), events), wire.arguments),
      AdapterUsage(Claude.InputTokens(events), Claude.OutputTokens(events)),
      None))
  {
    CollectAnthropic(text, wire);
    Claude.CallsOfWholeBlocks(events);
  }
}
