/** createStreamResult: one generator behind a stream and a collect operation. */
module StreamResult {
  import opened AdapterTypes
  import opened Wrappers

  datatype Collected = Collected(
    text: string, toolCalls: seq<AdapterToolCall>, usage: AdapterUsage, finishReason: Option<FinishReason>)

  datatype CollectError = AlreadyConsumed | AdapterError(message: string) | Incomplete

  // ---- What collecting a list of chunks means ----------------------------------

  const NO_USAGE := AdapterUsage(0, 0)

  function AllText(chunks: seq<AdapterChunk>): string {
    if chunks == [] then ""
    else
      var n := |chunks| - 1;
      AllText(chunks[..n]) + if chunks[n].Text? then chunks[n].text else ""
  }

  function AllCalls(chunks: seq<AdapterChunk>): seq<AdapterToolCall> {
    if chunks == [] then []
    else
      var n := |chunks| - 1;
      AllCalls(chunks[..n]) + if chunks[n].ToolCall? then [chunks[n].call] else []
  }

  function FinalUsage(chunks: seq<AdapterChunk>): AdapterUsage {
    if chunks == [] then NO_USAGE
    else
      var n := |chunks| - 1;
      if chunks[n].Usage? then chunks[n].usage else FinalUsage(chunks[..n])
  }

  /** The finish reason of the last done chunk; None before any. */
  function FinalDone(chunks: seq<AdapterChunk>): Option<Option<FinishReason>> {
    if chunks == [] then None
    else
      var n := |chunks| - 1;
      if chunks[n].Done? then Some(chunks[n].finishReason) else FinalDone(chunks[..n])
  }

  function FirstFailure(chunks: seq<AdapterChunk>): Option<string> {
    if chunks == [] then None
    else
      var n := |chunks| - 1;
      var earlier := FirstFailure(chunks[..n]);
      if earlier.None? && chunks[n].Failure? then Some(chunks[n].message) else earlier
  }

  function Summary(chunks: seq<AdapterChunk>): Collected {
    var done := FinalDone(chunks);
    Collected(AllText(chunks), AllCalls(chunks), FinalUsage(chunks), if done.Some? then done.value else None)
  }

  predicate HasContent(c: Collected) {
    c.text != "" || c.toolCalls != [] || c.usage.promptTokens > 0 || c.usage.completionTokens > 0
  }

  /** The outcome of draining a generator that yields these chunks. */
  function Gather(chunks: seq<AdapterChunk>): Result<Collected, CollectError> {
    if FirstFailure(chunks).Some? then Err(AdapterError(FirstFailure(chunks).value))
    else if FinalDone(chunks).None? && HasContent(Summary(chunks)) then Err(Incomplete)
    else Ok(Summary(chunks))
  }

  /** What a stream yields after a collect. */
  function Replay(c: Collected): seq<AdapterChunk> {
    (if c.text != "" then [Text(c.text)] else [])
    + CallChunks(c.toolCalls)
    + Ending(Some(c.usage))
  }

  // ---- The program ----------------------------------------------------------------

  /** Where the wrapped generator is: not asked yet, passing chunks through, or replaying. */
  datatype Phase = NotStarted | Live | Replaying(rest: seq<AdapterChunk>)

  class Adapter {
    /** What the underlying generator has still to yield. */
    var gen: seq<AdapterChunk>
    var collected: Option<Collected>
    var streamConsumed: bool
    var phase: Phase

    /** What the stream has yielded, and what it will have yielded in the end. */
    ghost var streamed: seq<AdapterChunk>
    ghost var promised: seq<AdapterChunk>

    ghost predicate Valid()
      reads this
    {
      && (streamConsumed <==> phase.Live?)
      && (phase.Replaying? ==> collected.Some?)
      && (collected.Some? ==> !phase.Live?)
      && (phase.NotStarted? ==> streamed == [])
      && streamed + Remaining() == promised
    }

    /** What the stream still yields if nothing but the stream is used. */
    function Remaining(): seq<AdapterChunk>
      reads this
    {
      match phase
      case NotStarted => if collected.Some? then Replay(collected.value) else gen
      case Live => gen
      case Replaying(rest) => rest
    }

    constructor (chunks: seq<AdapterChunk>)
      ensures Valid() && gen == chunks && collected.None? && phase.NotStarted? && streamed == []
    {
      gen, collected, streamConsumed, phase := chunks, None, false, NotStarted;
      streamed, promised := [], chunks;
    }

    /** One step of the stream; None at its end. */
    method Next() returns (chunk: Option<AdapterChunk>)
      requires Valid()
      modifies this
      ensures Valid() && promised == old(promised) && collected == old(collected)
      ensures if old(Remaining()) == [] then chunk == None && streamed == old(streamed)
              else chunk == Some(old(Remaining())[0]) && streamed == old(streamed) + [old(Remaining())[0]]
      ensures old(collected).Some? ==> gen == old(gen) && phase.Replaying?
      ensures old(collected).None? ==> phase.Live?
    {
      if phase.NotStarted? {
        if collected.Some? {
          phase := Replaying(Replay(collected.value));
        } else {
          streamConsumed := true;
          phase := Live;
        }
      }
      ghost var rest := Remaining();
      assert rest == old(Remaining());
      assert rest != [] ==> (streamed + [rest[0]]) + rest[1..] == streamed + rest;
      chunk := None;
      match phase {
        case Live =>
          if gen != [] {
            chunk := Some(gen[0]);
            streamed := streamed + [gen[0]];
            gen := gen[1..];
          }
        case Replaying(rest) =>
          if rest != [] {
            chunk := Some(rest[0]);
            streamed := streamed + [rest[0]];
            phase := Replaying(rest[1..]);
          }
        case NotStarted =>
          assert false;
      }
    }

    method Collect() returns (r: Result<Collected, CollectError>)
      requires Valid()
      modifies this
      ensures Valid() && phase == old(phase) && streamConsumed == old(streamConsumed) && streamed == old(streamed)
      ensures old(collected).Some? ==> r == Ok(old(collected).value) && gen == old(gen)
      ensures old(collected).None? && old(streamConsumed) ==> r == Err(AlreadyConsumed) && gen == old(gen)
      ensures old(collected).None? && !old(streamConsumed) ==> r == Gather(old(gen)) && gen == []
      ensures collected == if r.Ok? then Some(r.value) else old(collected)
    {
      if collected.Some? {
        return Ok(collected.value);
      }
      if streamConsumed {
        return Err(AlreadyConsumed);
      }
      var failure, text, toolCalls, usage, done := Drain();
      if failure.Some? {
        promised := [];
        return Err(AdapterError(failure.value));
      }
      var hasAnyContent := text != "" || toolCalls != [] || usage.promptTokens > 0 || usage.completionTokens > 0;
      if done.None? && hasAnyContent {
        promised := [];
        return Err(Incomplete);
      }
      collected := Some(Collected(text, toolCalls, usage, if done.Some? then done.value else None));
      promised := Replay(collected.value);
      r := Ok(collected.value);
    }

    /** The switch of that loop, for a chunk that is not an error. */
    static method Take(chunk: AdapterChunk, text: string, toolCalls: seq<AdapterToolCall>, usage: AdapterUsage,
                       done: Option<Option<FinishReason>>, ghost taken: seq<AdapterChunk>)
        returns (text': string, toolCalls': seq<AdapterToolCall>, usage': AdapterUsage,
                 done': Option<Option<FinishReason>>)
      requires !chunk.Failure? && Summarizes(taken, text, toolCalls, usage, done)
      ensures Summarizes(taken + [chunk], text', toolCalls', usage', done')
    {
      text', toolCalls', usage', done' := text, toolCalls, usage, done;
      SummaryAppend(taken, chunk);
      match chunk {
        case Text(t) => text' := text + t;
        case ToolCall(call) => toolCalls' := toolCalls + [call];
        case Usage(u) => usage' := u;
        case Done(reason) => done' := Some(reason);
      }
    }

    /** The for-await loop of collect. Leaving it by an exception finishes the generator as well. */
    method Drain()
        returns (failure: Option<string>, text: string, toolCalls: seq<AdapterToolCall>, usage: AdapterUsage,
                 done: Option<Option<FinishReason>>)
      modifies this`gen
      ensures gen == [] && failure == FirstFailure(old(gen))
      ensures failure.None? ==> Summarizes(old(gen), text, toolCalls, usage, done)
    {
      failure, text, toolCalls, usage, done := None, "", [], AdapterUsage(0, 0), None;
      ghost var taken: seq<AdapterChunk> := [];
      while gen != []
        invariant taken + gen == old(gen)
        invariant Summarizes(taken, text, toolCalls, usage, done)
        decreases |gen|
      {
        var chunk := gen[0];
        assert taken + gen == (taken + [chunk]) + gen[1..];
        gen := gen[1..];
        if chunk.Failure? {
          SummaryAppend(taken, chunk);
          FailureStays(taken + [chunk], gen);
          gen := [];
          failure := Some(chunk.message);
          return;
        }
        text, toolCalls, usage, done := Take(chunk, text, toolCalls, usage, done, taken);
        taken := taken + [chunk];
      }
      assert taken == old(gen);
    }
  }

  /** What the loop has gathered from the chunks so far, none of which is an error. */
  ghost predicate Summarizes(chunks: seq<AdapterChunk>, text: string, toolCalls: seq<AdapterToolCall>,
                             usage: AdapterUsage, done: Option<Option<FinishReason>>) {
    && FirstFailure(chunks).None?
    && text == AllText(chunks) && toolCalls == AllCalls(chunks)
    && usage == FinalUsage(chunks) && done == FinalDone(chunks)
  }

  lemma {:induction false} FailureStays(taken: seq<AdapterChunk>, rest: seq<AdapterChunk>)
    requires FirstFailure(taken).Some?
    ensures FirstFailure(taken + rest) == FirstFailure(taken)
    decreases |rest|
  {
    if rest == [] {
      assert taken + rest == taken;
    } else {
      var n := |rest| - 1;
      FailureStays(taken, rest[..n]);
      assert (taken + rest)[..|taken + rest| - 1] == taken + rest[..n];
    }
  }

  // ---- Collecting twice, replaying ------------------------------------------------------

  /** Whether draining a generator that yields these chunks succeeds. */
  predicate CollectsCleanly(chunks: seq<AdapterChunk>) {
    FirstFailure(chunks).None? && (FinalDone(chunks).Some? || !HasContent(Summary(chunks)))
  }

  /** A second collect repeats the first if and only if there is a cached result, or the stream has started,
      or the generator has neither a failure nor content without an end; otherwise it finds the generator
      finished and reports an empty success. */
  method CollectTwice(adapter: Adapter)
      returns (first: Result<Collected, CollectError>, second: Result<Collected, CollectError>)
    requires adapter.Valid()
    modifies adapter
    ensures second == first <==>
      old(adapter.collected).Some? || old(adapter.streamConsumed) || CollectsCleanly(old(adapter.gen))
    ensures second != first ==> first.Err? && second == Ok(Collected("", [], NO_USAGE, None))
  {
    first := adapter.Collect();
    second := adapter.Collect();
  }

  /** An input on which collect is not idempotent: a generator that reports one failure. */
  method FailureIsForgotten(message: string)
      returns (first: Result<Collected, CollectError>, second: Result<Collected, CollectError>)
    ensures first == Err(AdapterError(message))
    ensures second == Ok(Collected("", [], NO_USAGE, None))
  {
    SummaryAppend([], Failure(message));
    var adapter := new Adapter([Failure(message)]);
    first := adapter.Collect();
    second := adapter.Collect();
  }

  lemma SummaryAppend(chunks: seq<AdapterChunk>, c: AdapterChunk)
    ensures AllText(chunks + [c]) == if c.Text? then AllText(chunks) + c.text else AllText(chunks)
    ensures AllCalls(chunks + [c]) == if c.ToolCall? then AllCalls(chunks) + [c.call] else AllCalls(chunks)
    ensures FinalUsage(chunks + [c]) == if c.Usage? then c.usage else FinalUsage(chunks)
    ensures FinalDone(chunks + [c]) == if c.Done? then Some(c.finishReason) else FinalDone(chunks)
    ensures !c.Failure? ==> FirstFailure(chunks + [c]) == FirstFailure(chunks)
    ensures c.Failure? && FirstFailure(chunks).None? ==> FirstFailure(chunks + [c]) == Some(c.message)
  {
  }

  /** Tool-call chunks add their calls to a summary and change nothing else. */
  ghost predicate AddsOnlyCalls(chunks: seq<AdapterChunk>, calls: seq<AdapterToolCall>, more: seq<AdapterChunk>) {
    && AllText(more) == AllText(chunks) && AllCalls(more) == AllCalls(chunks) + calls
    && FinalUsage(more) == FinalUsage(chunks) && FinalDone(more) == FinalDone(chunks)
    && FirstFailure(more) == FirstFailure(chunks)
  }

  lemma {:induction false} SummaryOfCalls(chunks: seq<AdapterChunk>, calls: seq<AdapterToolCall>)
    ensures AddsOnlyCalls(chunks, calls, chunks + CallChunks(calls))
    decreases |calls|
  {
    if calls == [] {
      assert chunks + CallChunks(calls) == chunks;
      assert AllCalls(chunks) + calls == AllCalls(chunks);
    } else {
      var rest, last := calls[..|calls| - 1], calls[|calls| - 1];
      assert calls == rest + [last];
      SummaryOfCalls(chunks, rest);
      OneMoreCall(chunks, rest, chunks + CallChunks(rest), last);
      CallChunksAppend(chunks, rest, last);
    }
  }

  lemma CallChunksAppend(chunks: seq<AdapterChunk>, rest: seq<AdapterToolCall>, last: AdapterToolCall)
    ensures chunks + CallChunks(rest + [last]) == (chunks + CallChunks(rest)) + [ToolCall(last)]
  {
  }

  lemma OneMoreCall(chunks: seq<AdapterChunk>, rest: seq<AdapterToolCall>, more: seq<AdapterChunk>,
                    last: AdapterToolCall)
    requires AddsOnlyCalls(chunks, rest, more)
    ensures AddsOnlyCalls(chunks, rest + [last], more + [ToolCall(last)])
  {
  }

  /** The end of a stream: its usage if there is one, and the done chunk. */
  function Ending(usage: Option<AdapterUsage>): seq<AdapterChunk> {
    if usage.Some? then [Usage(usage.value), Done(None)] else [Done(None)]
  }

  /** Ending a stream of text and calls with a usage and a done chunk completes it. */
  lemma GatherEnd(body: seq<AdapterChunk>, usage: Option<AdapterUsage>)
    requires FirstFailure(body).None?
    ensures Gather(body + Ending(usage)) ==
      Ok(Collected(AllText(body), AllCalls(body), if usage.Some? then usage.value else FinalUsage(body), None))
  {
    if usage.Some? {
      SummaryAppend(body, Usage(usage.value));
      GatherDone(body + [Usage(usage.value)], None);
      assert body + Ending(usage) == (body + [Usage(usage.value)]) + [Done(None)];
    } else {
      GatherDone(body, None);
    }
  }

  /** A stream that ends collects to all its text, its calls, its last usage, and the reason of its end. */
  lemma GatherDone(body: seq<AdapterChunk>, reason: Option<FinishReason>)
    requires FirstFailure(body).None?
    ensures Gather(body + [Done(reason)]) == Ok(Collected(AllText(body), AllCalls(body), FinalUsage(body), reason))
  {
    SummaryAppend(body, Done(reason));
  }

  /** Collecting a replayed stream gives back the same text, calls and usage; the finish reason is lost. */
  lemma GatherReplay(c: Collected)
    ensures Gather(Replay(c)) == Ok(c.(finishReason := None))
    ensures Gather(Replay(c)) == Ok(c) <==> c.finishReason == None
  {
    var text: seq<AdapterChunk> := if c.text != "" then [Text(c.text)] else [];
    SummaryOfReplayedText(c.text);
    SummaryOfCalls(text, c.toolCalls);
    assert [] + c.toolCalls == c.toolCalls;
    GatherEnd(text + CallChunks(c.toolCalls), Some(c.usage));
  }

  lemma SummaryOfReplayedText(text: string)
    ensures var chunks := if text != "" then [Text(text)] else [];
      AllText(chunks) == text && AllCalls(chunks) == [] && FirstFailure(chunks).None?
  {
  }

  // ---- The outcome, chunk by chunk -----------------------------------------------------------

  /** Some chunk is a text that is not empty, or a tool call. */
  ghost predicate HasTextOrCall(chunks: seq<AdapterChunk>) {
    exists i :: 0 <= i < |chunks| && ((chunks[i].Text? && chunks[i].text != "") || chunks[i].ToolCall?)
  }

  /** The last usage chunk reports tokens. */
  ghost predicate ReportsTokens(chunks: seq<AdapterChunk>) {
    exists i :: 0 <= i < |chunks| && chunks[i].Usage?
      && (chunks[i].usage.promptTokens > 0 || chunks[i].usage.completionTokens > 0)
      && forall j :: i < j < |chunks| ==> !chunks[j].Usage?
  }

  lemma {:induction false} FailuresAndDones(chunks: seq<AdapterChunk>)
    ensures FirstFailure(chunks) == None <==> forall i :: 0 <= i < |chunks| ==> !chunks[i].Failure?
    ensures FinalDone(chunks) == None <==> forall i :: 0 <= i < |chunks| ==> !chunks[i].Done?
  {
    if chunks != [] {
      var n := |chunks| - 1;
      FailuresAndDones(chunks[..n]);
      assert forall i :: 0 <= i < n ==> chunks[..n][i] == chunks[i];
    }
  }

  lemma TextOrCallNext(rest: seq<AdapterChunk>, last: AdapterChunk)
    ensures HasTextOrCall(rest + [last]) <==>
      HasTextOrCall(rest) || (last.Text? && last.text != "") || last.ToolCall?
  {
    var chunks := rest + [last];
    assert chunks[|rest|] == last;
    assert forall i :: 0 <= i < |rest| ==> chunks[i] == rest[i];
  }

  lemma {:induction false} TextsAndCalls(chunks: seq<AdapterChunk>)
    ensures AllText(chunks) != "" || AllCalls(chunks) != [] <==> HasTextOrCall(chunks)
  {
    if chunks != [] {
      var rest, last := chunks[..|chunks| - 1], chunks[|chunks| - 1];
      assert chunks == rest + [last];
      TextsAndCalls(rest);
      SummaryAppend(rest, last);
      TextOrCallNext(rest, last);
    }
  }

  lemma {:induction false} TokensReported(chunks: seq<AdapterChunk>)
    ensures FinalUsage(chunks).promptTokens > 0 || FinalUsage(chunks).completionTokens > 0 <==> ReportsTokens(chunks)
  {
    if chunks != [] {
      var n := |chunks| - 1;
      var rest, last := chunks[..n], chunks[n];
      TokensReported(rest);
      assert forall j :: 0 <= j < n ==> chunks[j] == rest[j];
    }
  }

  /** Collecting fails as incomplete if and only if there is no error and no end, but there is text, a tool call
      or a last usage with tokens. */
  lemma IncompleteExactly(chunks: seq<AdapterChunk>)
    ensures Gather(chunks) == Err(Incomplete) <==>
      && (forall i :: 0 <= i < |chunks| ==> !chunks[i].Failure? && !chunks[i].Done?)
      && (HasTextOrCall(chunks) || ReportsTokens(chunks))
  {
    FailuresAndDones(chunks);
    TextsAndCalls(chunks);
    TokensReported(chunks);
  }

  /** The first error is the one reported. */
  lemma {:induction false} FirstErrorReported(chunks: seq<AdapterChunk>, k: nat)
    requires k < |chunks| && chunks[k].Failure? && forall i :: 0 <= i < k ==> !chunks[i].Failure?
    ensures Gather(chunks) == Err(AdapterError(chunks[k].message))
  {
    var n := |chunks| - 1;
    if k < n {
      FirstErrorReported(chunks[..n], k);
    } else {
      FailuresAndDones(chunks[..n]);
    }
  }

  /** A replay is the text, if there is one, the calls in order, the usage, and the end. */
  lemma ReplayLayout(c: Collected, i: nat)
    requires i < |c.toolCalls|
    ensures |Replay(c)| == (if c.text != "" then 1 else 0) + |c.toolCalls| + 2
    ensures c.text != "" ==> Replay(c)[0] == Text(c.text)
    ensures Replay(c)[(if c.text != "" then 1 else 0) + i] == ToolCall(c.toolCalls[i])
    ensures Replay(c)[|Replay(c)| - 2] == Usage(c.usage) && Replay(c)[|Replay(c)| - 1] == Done(None)
  {
  }
}
