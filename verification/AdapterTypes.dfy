/** The chunk vocabulary shared by the streaming adapters. */
module AdapterTypes {
  import opened Wrappers

  /** A parsed JSON object; only passed around. */
  type Json(==, 0, !new)

  datatype AdapterUsage = AdapterUsage(promptTokens: int, completionTokens: int)

  datatype AdapterToolCall = AdapterToolCall(id: string, name: string, arguments: Json)

  datatype FinishReason = Stop | Length | ToolCalls | ContentFilter

  datatype AdapterChunk =
    | Text(text: string)
    | ToolCall(call: AdapterToolCall)
    | Usage(usage: AdapterUsage)
    | Done(finishReason: Option<FinishReason>)
    | Failure(message: string)

  /** JSON.parse on tool-call arguments; None where it throws, and {} is used instead. */
  datatype ArgumentParser = ArgumentParser(parse: string -> Option<Json>, empty: Json) {
    function Arguments(text: string): Json {
      match parse(text)
      case Some(json) => json
      case None => empty
    }
  }

  /** A tool call whose argument text is still being received. */
  datatype PendingCall = PendingCall(id: string, name: string, args: string) {
    function Parsed(arguments: ArgumentParser): AdapterToolCall {
      AdapterToolCall(id, name, arguments.Arguments(args))
    }
  }

  function ParseAll(calls: seq<PendingCall>, arguments: ArgumentParser): (parsed: seq<AdapterToolCall>)
    ensures |parsed| == |calls| && forall i :: 0 <= i < |calls| ==> parsed[i] == calls[i].Parsed(arguments)
  {
    seq(|calls|, i requires 0 <= i < |calls| => calls[i].Parsed(arguments))
  }

  /** One chunk for each call. */
  function CallChunks(calls: seq<AdapterToolCall>): (chunks: seq<AdapterChunk>)
    ensures |chunks| == |calls| && forall i :: 0 <= i < |calls| ==> chunks[i] == ToolCall(calls[i])
  {
    seq(|calls|, i requires 0 <= i < |calls| => ToolCall(calls[i]))
  }

  /** A call is emitted with its id, its name, and its argument text as parsed, or {} if that fails. */
  lemma EmittedCalls(calls: seq<PendingCall>, arguments: ArgumentParser)
    ensures |CallChunks(ParseAll(calls, arguments))| == |calls|
    ensures forall i :: 0 <= i < |calls| ==>
      CallChunks(ParseAll(calls, arguments))[i] == ToolCall(AdapterToolCall(calls[i].id, calls[i].name,
        match arguments.parse(calls[i].args) case Some(json) => json case None => arguments.empty))
  {
  }

  lemma EmittedCall(call: PendingCall, arguments: ArgumentParser, json: Json)
    requires arguments.parse(call.args) == Some(json)
    ensures CallChunks(ParseAll([call], arguments)) == [ToolCall(AdapterToolCall(call.id, call.name, json))]
  {
    EmittedCalls([call], arguments);
  }

  function TextsAsChunks(texts: seq<string>): (chunks: seq<AdapterChunk>)
    ensures |chunks| == |texts| && forall k :: 0 <= k < |texts| ==> chunks[k] == Text(texts[k])
  {
    seq(|texts|, k requires 0 <= k < |texts| => Text(texts[k]))
  }
}
