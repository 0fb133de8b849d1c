/** The streaming parser of the OpenAI-compatible adapters. */
module OpenAiStream {
  import opened AdapterTypes
  import opened Lines
  import opened Sequences
  import opened Wrappers

  // ---- What the wire carries -------------------------------------------------

  /** One entry of delta.tool_calls; absent and empty strings are the same to the parser. */
  datatype Fragment = Fragment(index: Option<int>, id: string, name: string, args: string)

  /** What the field accesses on one parsed payload deliver before any of them throws. */
  datatype Event = Event(content: string, fragments: seq<Fragment>, usage: Option<AdapterUsage>)

  /** JSON.parse followed by those accesses; None where parsing throws. */
  datatype Wire = Wire(event: string -> Option<Event>, arguments: ArgumentParser)

  datatype Item = DoneMark | Parsed(event: Event)

  function ItemOfData(data: string, wire: Wire): Option<Item> {
    if data == "[DONE]" then Some(DoneMark)
    else match wire.event(data)
      case None => None
      case Some(event) => Some(Parsed(event))
  }

  function ItemOf(line: string, wire: Wire): Option<Item> {
    match Payload(line)
    case None => None
    case Some(data) => ItemOfData(data, wire)
  }

  /** What a list of lines carries; other lines and malformed payloads are skipped. */
  function Items(lines: seq<string>, wire: Wire): seq<Item> {
    if lines == [] then []
    else
      var n := |lines| - 1;
      var item := ItemOf(lines[n], wire);
      Items(lines[..n], wire) + if item.Some? then [item.value] else []
  }

  // ---- Reassembly, as a function of the fragments received ----------------------

  /** A fragment once its call is known. */
  datatype Piece = Piece(index: int, id: string, name: string, args: string)

  /** The calls in order of first appearance. */
  function Indexes(pieces: seq<Piece>): seq<int> {
    if pieces == [] then []
    else
      var n := |pieces| - 1;
      var earlier := Indexes(pieces[..n]);
      if pieces[n].index in earlier then earlier else earlier + [pieces[n].index]
  }

  /** A fragment without an index goes to the call numbered by the count of calls so far. */
  function Resolve(fragments: seq<Fragment>): (pieces: seq<Piece>)
    ensures |pieces| == |fragments|
  {
    if fragments == [] then []
    else
      var n := |fragments| - 1;
      var earlier, f := Resolve(fragments[..n]), fragments[n];
      earlier + [Piece(if f.index.Some? then f.index.value else |Indexes(earlier)|, f.id, f.name, f.args)]
  }

  function Project(pieces: seq<Piece>, index: int): seq<Piece> {
    if pieces == [] then []
    else
      var n := |pieces| - 1;
      Project(pieces[..n], index) + if pieces[n].index == index then [pieces[n]] else []
  }

  function LastId(pieces: seq<Piece>): string {
    if pieces == [] then ""
    else
      var n := |pieces| - 1;
      if pieces[n].id != "" then pieces[n].id else LastId(pieces[..n])
  }

  function LastName(pieces: seq<Piece>): string {
    if pieces == [] then ""
    else
      var n := |pieces| - 1;
      if pieces[n].name != "" then pieces[n].name else LastName(pieces[..n])
  }

  function AllArguments(pieces: seq<Piece>): string {
    if pieces == [] then ""
    else
      var n := |pieces| - 1;
      AllArguments(pieces[..n]) + pieces[n].args
  }

  /** The call an index stands for: the last id and name given, all argument text in order. */
  function Assembled(pieces: seq<Piece>, index: int): PendingCall {
    var own := Project(pieces, index);
    PendingCall(LastId(own), LastName(own), AllArguments(own))
  }

  /** One call per index, in order of first appearance. */
  function Calls(pieces: seq<Piece>): (calls: seq<PendingCall>)
    ensures |calls| == |Indexes(pieces)|
    ensures forall k :: 0 <= k < |calls| ==> calls[k] == Assembled(pieces, Indexes(pieces)[k])
  {
    seq(|Indexes(pieces)|, k requires 0 <= k < |Indexes(pieces)| => Assembled(pieces, Indexes(pieces)[k]))
  }

  // ---- What is emitted, as a function of the items received -----------------------

  function Fragments(items: seq<Item>): seq<Fragment> {
    if items == [] then []
    else
      var n := |items| - 1;
      Fragments(items[..n]) + match items[n] case Parsed(event) => event.fragments case DoneMark => []
  }

  function LastUsage(items: seq<Item>): Option<AdapterUsage> {
    if items == [] then None
    else
      var n := |items| - 1;
      match items[n]
      case Parsed(event) => if event.usage.Some? then event.usage else LastUsage(items[..n])
      case DoneMark => LastUsage(items[..n])
  }

  function UsageChunks(items: seq<Item>): seq<AdapterChunk> {
    match LastUsage(items) case Some(usage) => [Usage(usage)] case None => []
  }

  /** At a done mark: the calls reassembled so far, then the last usage. */
  function DoneChunks(items: seq<Item>, arguments: ArgumentParser): seq<AdapterChunk> {
    CallChunks(ParseAll(Calls(Resolve(Fragments(items))), arguments)) + UsageChunks(items)
  }

  /** What one item makes the parser emit after the items before it. */
  function Emission(before: seq<Item>, item: Item, wire: Wire): seq<AdapterChunk> {
    match item
    case DoneMark => DoneChunks(before, wire.arguments)
    case Parsed(event) => if event.content != "" then [Text(event.content)] else []
  }

  function Output(items: seq<Item>, wire: Wire): seq<AdapterChunk> {
    if items == [] then []
    else
      var n := |items| - 1;
      Output(items[..n], wire) + Emission(items[..n], items[n], wire)
  }

  /** The answer to a text. */
  function Answer(text: string, wire: Wire): seq<AdapterChunk> {
    Output(Items(CompleteLines(text), wire), wire) + [Done(None)]
  }

  // ---- The program ------------------------------------------------------------------

  /** A JavaScript Map: keys in insertion order. */
  datatype PendingCalls = PendingCalls(order: seq<int>, calls: map<int, PendingCall>)

  ghost predicate Holds(pending: PendingCalls, pieces: seq<Piece>) {
    && pending.order == Indexes(pieces)
    && (forall i :: i in pending.calls <==> i in pending.order)
    && (forall i :: i in pending.calls ==> pending.calls[i] == Assembled(pieces, i))
  }

  /** The field updates of the loop over delta.tool_calls. */
  method UpdateCall(call: PendingCall, f: Fragment) returns (p: PendingCall)
    ensures p == Merge(call, f.id, f.name, f.args)
  {
    p := call;
    if f.id != "" {
      p := p.(id := f.id);
    }
    if f.name != "" {
      p := p.(name := f.name);
    }
    if f.args != "" {
      p := p.(args := p.args + f.args);
    }
    assert call.args + "" == call.args;
  }

  /** The body of that loop. */
  method AddFragment(pending: PendingCalls, f: Fragment, ghost fragments: seq<Fragment>) returns (after: PendingCalls)
    requires Holds(pending, Resolve(fragments))
    ensures Holds(after, Resolve(fragments + [f]))
  {
    after := pending;
    var i := if f.index.Some? then f.index.value else |after.order|;
    if i !in after.calls {
      after := PendingCalls(after.order + [i], after.calls[i := PendingCall(f.id, f.name, "")]);
    }
    var p := UpdateCall(after.calls[i], f);
    after := after.(calls := after.calls[i := p]);
    ResolveAppend(fragments, f);
    HoldsAppend(pending, Resolve(fragments), Piece(i, f.id, f.name, f.args), after);
  }

  method Accumulate(pending: PendingCalls, fragments: seq<Fragment>, ghost before: seq<Fragment>)
      returns (after: PendingCalls)
    requires Holds(pending, Resolve(before))
    ensures Holds(after, Resolve(before + fragments))
  {
    after := pending;
    assert before + fragments[..0] == before;
    for k := 0 to |fragments|
      invariant Holds(after, Resolve(before + fragments[..k]))
    {
      OneMoreOf(before, fragments, k);
      after := AddFragment(after, fragments[k], before + fragments[..k]);
    }
    assert fragments[..|fragments|] == fragments;
  }

  lemma OneMoreOf(before: seq<Fragment>, fragments: seq<Fragment>, k: nat)
    requires k < |fragments|
    ensures before + fragments[..k + 1] == (before + fragments[..k]) + [fragments[k]]
  {
  }

  method FlushCalls(pending: PendingCalls, arguments: ArgumentParser, ghost pieces: seq<Piece>)
      returns (chunks: seq<AdapterChunk>)
    requires Holds(pending, pieces)
    ensures chunks == CallChunks(ParseAll(Calls(pieces), arguments))
  {
    chunks := [];
    for k := 0 to |pending.order|
      invariant |chunks| == k
      invariant forall j :: 0 <= j < k ==> chunks[j] == ToolCall(Calls(pieces)[j].Parsed(arguments))
    {
      CallAt(pending, pieces, k);
      var chunk := FlushCall(pending.calls[pending.order[k]], arguments);
      chunks := chunks + [chunk];
    }
  }

  method FlushCall(call: PendingCall, arguments: ArgumentParser) returns (chunk: AdapterChunk)
    ensures chunk == ToolCall(call.Parsed(arguments))
  {
    var args := arguments.empty;
    match arguments.parse(call.args) {
      case Some(json) => args := json;
      case None =>
    }
    chunk := ToolCall(AdapterToolCall(call.id, call.name, args));
  }

  lemma CallAt(pending: PendingCalls, pieces: seq<Piece>, k: nat)
    requires Holds(pending, pieces) && k < |pending.order|
    ensures pending.order[k] in pending.calls && pending.calls[pending.order[k]] == Calls(pieces)[k]
  {
  }

  /** The local variables that outlive a line, against the items read. */
  ghost predicate Agrees(pending: PendingCalls, lastUsage: Option<AdapterUsage>, items: seq<Item>) {
    Holds(pending, Resolve(Fragments(items))) && lastUsage == LastUsage(items)
  }

  /** The branch for [DONE]. */
  method Flush(pending: PendingCalls, lastUsage: Option<AdapterUsage>, wire: Wire, ghost items: seq<Item>)
      returns (emitted: seq<AdapterChunk>)
    requires Agrees(pending, lastUsage, items)
    ensures emitted == DoneChunks(items, wire.arguments)
  {
    emitted := FlushCalls(pending, wire.arguments, Resolve(Fragments(items)));
    if lastUsage.Some? {
      emitted := emitted + [Usage(lastUsage.value)];
    }
  }

  /** The branch for a parsed payload. */
  method HandleEvent(event: Event, pending: PendingCalls, lastUsage: Option<AdapterUsage>, ghost items: seq<Item>)
      returns (emitted: seq<AdapterChunk>, pending': PendingCalls, lastUsage': Option<AdapterUsage>)
    requires Agrees(pending, lastUsage, items)
    ensures Agrees(pending', lastUsage', items + [Parsed(event)])
    ensures emitted == if event.content != "" then [Text(event.content)] else []
  {
    emitted, lastUsage' := [], lastUsage;
    if event.content != "" {
      emitted := [Text(event.content)];
    }
    pending' := Accumulate(pending, event.fragments, Fragments(items));
    if event.usage.Some? {
      lastUsage' := event.usage;
    }
    ItemAppend(items, Parsed(event));
  }

  /** The items after one more line or payload, which may carry none, and what is emitted for it. */
  function ItemsAfter(items: seq<Item>, item: Option<Item>): seq<Item> {
    if item.Some? then items + [item.value] else items
  }

  function EmissionOf(before: seq<Item>, item: Option<Item>, wire: Wire): seq<AdapterChunk> {
    if item.Some? then Emission(before, item.value, wire) else []
  }

  /** What follows the "data: " of a line. */
  method HandleData(dataStr: string, wire: Wire, pending: PendingCalls, lastUsage: Option<AdapterUsage>,
                    ghost items: seq<Item>)
      returns (emitted: seq<AdapterChunk>, pending': PendingCalls, lastUsage': Option<AdapterUsage>)
    requires Agrees(pending, lastUsage, items)
    ensures Agrees(pending', lastUsage', ItemsAfter(items, ItemOfData(dataStr, wire)))
    ensures emitted == EmissionOf(items, ItemOfData(dataStr, wire), wire)
  {
    emitted, pending', lastUsage' := [], pending, lastUsage;
    if dataStr == "[DONE]" {
      emitted := Flush(pending, lastUsage, wire, items);
      ItemAppend(items, DoneMark);
      return;
    }
    match wire.event(dataStr) {
      case None =>
      case Some(event) =>
        emitted, pending', lastUsage' := HandleEvent(event, pending, lastUsage, items);
    }
  }

  /** The body of the inner loop, after a line has been cut off the buffer. */
  method HandleLine(line: string, wire: Wire, pending: PendingCalls, lastUsage: Option<AdapterUsage>,
                    ghost items: seq<Item>)
      returns (emitted: seq<AdapterChunk>, pending': PendingCalls, lastUsage': Option<AdapterUsage>)
    requires Agrees(pending, lastUsage, items)
    ensures Agrees(pending', lastUsage', ItemsAfter(items, ItemOf(line, wire)))
    ensures emitted == EmissionOf(items, ItemOf(line, wire), wire)
  {
    emitted, pending', lastUsage' := [], pending, lastUsage;
    if !("data: " <= line) {
      return;
    }
    emitted, pending', lastUsage' := HandleData(Trim(line[6..]), wire, pending, lastUsage, items);
  }

  /** The inner loop: every terminated line leaves the buffer. */
  method DrainLines(carried: string, wire: Wire, yielded: seq<AdapterChunk>,
                    pending: PendingCalls, lastUsage: Option<AdapterUsage>, ghost seen: seq<string>)
      returns (buffer: string, out: seq<AdapterChunk>, pending': PendingCalls, lastUsage': Option<AdapterUsage>)
    requires Agrees(pending, lastUsage, Items(seen, wire)) && yielded == Output(Items(seen, wire), wire)
    ensures buffer == Tail(carried)
    ensures Agrees(pending', lastUsage', Items(seen + CompleteLines(carried), wire))
    ensures out == Output(Items(seen + CompleteLines(carried), wire), wire)
  {
    buffer, out, pending', lastUsage' := carried, yielded, pending, lastUsage;
    ghost var lines := seen;
    var idx := SearchLineBreak(buffer);
    while idx >= 0
      invariant idx == SearchLineBreak(buffer)
      invariant lines + CompleteLines(buffer) == seen + CompleteLines(carried) && Tail(buffer) == Tail(carried)
      invariant Agrees(pending', lastUsage', Items(lines, wire)) && out == Output(Items(lines, wire), wire)
      decreases |buffer|
    {
      var line := Trim(buffer[..idx]);
      var lineEndLen := if buffer[idx] == '\r' then 2 else 1;
      LineBreakStep(buffer, idx, idx + lineEndLen);
      buffer := buffer[idx + lineEndLen..];
      var emitted;
      emitted, pending', lastUsage' := HandleLine(line, wire, pending', lastUsage', Items(lines, wire));
      out := out + emitted;
      LineAppend(lines, line, wire);
      Regroup(lines, [line], CompleteLines(buffer));
      lines := lines + [line];
      idx := SearchLineBreak(buffer);
    }
    NoLineBreakNoLines(buffer);
    assert lines + [] == lines;
  }

  /** The body of the outer loop: one more network fragment. */
  method TakeFragment(carried: string, fragment: string, wire: Wire, yielded: seq<AdapterChunk>,
                      pending: PendingCalls, lastUsage: Option<AdapterUsage>, ghost text: string)
      returns (buffer: string, out: seq<AdapterChunk>, pending': PendingCalls, lastUsage': Option<AdapterUsage>)
    requires IsRead(carried, yielded, pending, lastUsage, text, wire)
    ensures IsRead(buffer, out, pending', lastUsage', text + fragment, wire)
  {
    CarryTail(text, fragment);
    buffer := carried + fragment;
    buffer, out, pending', lastUsage' := DrainLines(buffer, wire, yielded, pending, lastUsage, CompleteLines(text));
  }

  /** The state of the parser once it has read a text. */
  ghost predicate IsRead(buffer: string, out: seq<AdapterChunk>, pending: PendingCalls, lastUsage: Option<AdapterUsage>,
                         text: string, wire: Wire) {
    && buffer == Tail(text)
    && Agrees(pending, lastUsage, Items(CompleteLines(text), wire))
    && out == Output(Items(CompleteLines(text), wire), wire)
  }

  lemma NothingRead(wire: Wire)
    ensures IsRead("", [], PendingCalls([], map[]), None, "", wire)
  {
  }

  /** The chunks yielded for a response body that arrives in the given fragments. */
  method ParseSseStream(body: Option<seq<string>>, wire: Wire) returns (out: seq<AdapterChunk>)
    ensures body.None? ==> out == []
    ensures body.Some? ==> out == Answer(Concat(body.value), wire)
  {
    out := [];
    if body.None? {
      return;
    }
    var fragments := body.value;
    var buffer := "";
    var pending := PendingCalls([], map[]);
    var lastUsage: Option<AdapterUsage> := None;
    ghost var text := "";
    NothingRead(wire);
    for k := 0 to |fragments|
      invariant Concat(fragments) == text + Concat(fragments[k..])
      invariant IsRead(buffer, out, pending, lastUsage, text, wire)
    {
      ConcatFirst(text, fragments, k);
      buffer, out, pending, lastUsage := TakeFragment(buffer, fragments[k], wire, out, pending, lastUsage, text);
      text := text + fragments[k];
    }
    assert text + Concat([]) == text;
    out := out + [Done(None)];
  }

  // ---- One more line, item or piece ---------------------------------------------------

  lemma LineAppend(lines: seq<string>, line: string, wire: Wire)
    ensures Items(lines + [line], wire) == ItemsAfter(Items(lines, wire), ItemOf(line, wire))
    ensures Output(Items(lines + [line], wire), wire)
         == Output(Items(lines, wire), wire) + EmissionOf(Items(lines, wire), ItemOf(line, wire), wire)
  {
    assert (lines + [line])[..|lines|] == lines;
    match ItemOf(line, wire)
    case None => assert Output(Items(lines, wire), wire) + [] == Output(Items(lines, wire), wire);
    case Some(item) => OutputAppend(Items(lines, wire), item, wire);
  }

  lemma OutputAppend(items: seq<Item>, item: Item, wire: Wire)
    ensures Output(items + [item], wire) == Output(items, wire) + Emission(items, item, wire)
  {
  }

  lemma ItemAppend(items: seq<Item>, item: Item)
    ensures Fragments(items + [item]) ==
      if item.Parsed? then Fragments(items) + item.event.fragments else Fragments(items)
    ensures LastUsage(items + [item]) ==
      if item.Parsed? && item.event.usage.Some? then item.event.usage else LastUsage(items)
  {
  }

  lemma ResolveAppend(fragments: seq<Fragment>, f: Fragment)
    ensures var earlier := Resolve(fragments);
      var index := if f.index.Some? then f.index.value else |Indexes(earlier)|;
      Resolve(fragments + [f]) == earlier + [Piece(index, f.id, f.name, f.args)]
  {
  }

  lemma IndexesAppend(pieces: seq<Piece>, p: Piece)
    ensures Indexes(pieces + [p]) == if p.index in Indexes(pieces) then Indexes(pieces) else Indexes(pieces) + [p.index]
  {
  }

  lemma ProjectAppend(pieces: seq<Piece>, p: Piece, index: int)
    ensures Project(pieces + [p], index) ==
      if p.index == index then Project(pieces, index) + [p] else Project(pieces, index)
  {
  }

  /** What one more piece does to its call. */
  function Merge(call: PendingCall, id: string, name: string, args: string): PendingCall {
    PendingCall(if id != "" then id else call.id, if name != "" then name else call.name, call.args + args)
  }

  lemma AssembledAppend(pieces: seq<Piece>, p: Piece, index: int)
    ensures Assembled(pieces + [p], index) ==
      if p.index == index then Merge(Assembled(pieces, index), p.id, p.name, p.args) else Assembled(pieces, index)
  {
    ProjectAppend(pieces, p, index);
    var own := Project(pieces, index);
    assert (own + [p])[..|own|] == own;
  }

  lemma {:induction false} NothingForUnseenIndex(pieces: seq<Piece>, index: int)
    ensures Project(pieces, index) == [] <==> index !in Indexes(pieces)
  {
    if pieces != [] {
      NothingForUnseenIndex(pieces[..|pieces| - 1], index);
    }
  }

  /** The table after one more piece: its call is created empty if need be, and merged with the piece. */
  lemma HoldsAppend(pending: PendingCalls, pieces: seq<Piece>, p: Piece, after: PendingCalls)
    requires Holds(pending, pieces)
    requires after.order == if p.index in pending.calls then pending.order else pending.order + [p.index]
    requires forall i :: i in after.calls <==> i in pending.calls || i == p.index
    requires forall i :: i in pending.calls && i != p.index ==> after.calls[i] == pending.calls[i]
    requires after.calls[p.index] ==
      Merge(if p.index in pending.calls then pending.calls[p.index] else PendingCall(p.id, p.name, ""),
            p.id, p.name, p.args)
    ensures Holds(after, pieces + [p])
  {
    IndexesAppend(pieces, p);
    NothingForUnseenIndex(pieces, p.index);
    forall i | i in after.calls ensures after.calls[i] == Assembled(pieces + [p], i) {
      AssembledAppend(pieces, p, i);
    }
  }

  // ---- What reassembly guarantees -----------------------------------------------------

  /** One call per index that occurs, and no index twice. */
  lemma {:induction false} OneCallPerIndex(pieces: seq<Piece>)
    ensures forall i :: i in Indexes(pieces) <==> exists k :: 0 <= k < |pieces| && pieces[k].index == i
    ensures Distinct(Indexes(pieces))
  {
    if pieces != [] {
      var n := |pieces| - 1;
      OneCallPerIndex(pieces[..n]);
      forall i ensures i in Indexes(pieces) <==> exists k :: 0 <= k < |pieces| && pieces[k].index == i {
        if i in Indexes(pieces[..n]) {
          var k :| 0 <= k < n && pieces[..n][k].index == i;
          assert pieces[k].index == i;
        }
        if k :| 0 <= k < n && pieces[k].index == i {
          assert pieces[..n][k].index == i;
        }
      }
    }
  }

  /** Swapping neighbours of different calls changes nothing but, when both are new, the order of the calls. */
  lemma SwapNeighbours(before: seq<Piece>, x: Piece, y: Piece)
    requires x.index != y.index
    ensures forall i :: Assembled(before + [x, y], i) == Assembled(before + [y, x], i)
    ensures Indexes(before + [x, y]) == Indexes(before + [y, x])
       <==> x.index in Indexes(before) || y.index in Indexes(before)
  {
    assert before + [x, y] == (before + [x]) + [y] && before + [y, x] == (before + [y]) + [x];
    IndexesAppend(before, x);
    IndexesAppend(before, y);
    IndexesAppend(before + [x], y);
    IndexesAppend(before + [y], x);
    if x.index !in Indexes(before) && y.index !in Indexes(before) {
      assert Indexes(before + [x, y])[|Indexes(before)|] == x.index;
      assert Indexes(before + [y, x])[|Indexes(before)|] == y.index;
    }
    forall i ensures Assembled(before + [x, y], i) == Assembled(before + [y, x], i) {
      AssembledAppend(before, x, i);
      AssembledAppend(before, y, i);
      AssembledAppend(before + [x], y, i);
      AssembledAppend(before + [y], x, i);
    }
  }

  /** The result does not depend on how the fragments of different calls are interleaved:
      first appearances and the fragments of each call decide it. */
  lemma InterleavingIrrelevant(p: seq<Piece>, q: seq<Piece>)
    requires Indexes(p) == Indexes(q)
    requires forall i :: i in Indexes(p) ==> Project(p, i) == Project(q, i)
    ensures Calls(p) == Calls(q)
  {
  }

  /** A fragment without an index starts a call of its own exactly when the count of calls so far is not
      itself an index in use; otherwise it is taken for a part of that call. */
  lemma MissingIndexStartsCall(fragments: seq<Fragment>, f: Fragment)
    requires f.index.None?
    ensures var before, after := Resolve(fragments), Resolve(fragments + [f]);
      (|Indexes(after)| == |Indexes(before)| + 1 <==> |Indexes(before)| !in Indexes(before)) &&
      (|Indexes(before)| !in Indexes(before) ==>
        Assembled(after, |Indexes(before)|) == PendingCall(f.id, f.name, f.args))
  {
    var before := Resolve(fragments);
    var n := |Indexes(before)|;
    ResolveAppend(fragments, f);
    var piece := Piece(n, f.id, f.name, f.args);
    IndexesAppend(before, piece);
    AssembledAppend(before, piece, n);
    NothingForUnseenIndex(before, n);
    assert "" + f.args == f.args;
  }

  lemma MissingIndexCanCollide()
    ensures var explicit, missing := Fragment(Some(1), "a", "f", "{}"), Fragment(None, "b", "g", "{}");
      Indexes(Resolve([explicit, missing])) == [1] &&
      Assembled(Resolve([explicit, missing]), 1) == PendingCall("b", "g", "{}{}")
  {
    var explicit, missing := Fragment(Some(1), "a", "f", "{}"), Fragment(None, "b", "g", "{}");
    ResolveAppend([], explicit);
    ResolveAppend([explicit], missing);
    var x, y := Piece(1, "a", "f", "{}"), Piece(1, "b", "g", "{}");
    assert [] + [explicit] == [explicit] && [explicit] + [missing] == [explicit, missing];
    IndexesAppend([], x);
    IndexesAppend([x], y);
    AssembledAppend([], x, 1);
    AssembledAppend([x], y, 1);
    assert Resolve([explicit]) == [] + [x] == [x] && Resolve([explicit, missing]) == [x] + [y];
    assert Assembled([], 1) == PendingCall("", "", "");
    assert "" + "{}" == "{}";
  }

  // ---- What a whole stream yields ------------------------------------------------------

  function Texts(items: seq<Item>): string {
    if items == [] then ""
    else
      var n := |items| - 1;
      Texts(items[..n]) + match items[n] case Parsed(event) => event.content case DoneMark => ""
  }

  function TextChunks(items: seq<Item>): seq<AdapterChunk> {
    if items == [] then []
    else
      var n := |items| - 1;
      TextChunks(items[..n]) +
        if items[n].Parsed? && items[n].event.content != "" then [Text(items[n].event.content)] else []
  }

  /** Without a terminated [DONE] line a stream yields its text and nothing else. */
  lemma {:induction false} WithoutDoneOnlyText(items: seq<Item>, wire: Wire)
    requires DoneMark !in items
    ensures Output(items, wire) == TextChunks(items)
  {
    if items != [] {
      var n := |items| - 1;
      assert items[n] in items && items[n] != DoneMark;
      WithoutDoneOnlyText(items[..n], wire);
    }
  }

  /** A stream whose one [DONE] comes last yields its text, one chunk per call, then the last usage. */
  lemma {:induction false} OneDoneOutput(events: seq<Item>, wire: Wire)
    requires DoneMark !in events
    ensures Output(events + [DoneMark], wire) ==
      TextChunks(events)
        + CallChunks(ParseAll(Calls(Resolve(Fragments(events))), wire.arguments))
        + UsageChunks(events)
  {
    OutputAppend(events, DoneMark, wire);
    WithoutDoneOnlyText(events, wire);
    Regroup(TextChunks(events),
            CallChunks(ParseAll(Calls(Resolve(Fragments(events))), wire.arguments)), UsageChunks(events));
  }

  /** What comes after the last line terminator is never looked at. */
  lemma {:induction false} UnterminatedTailIgnored(text: string, tail: string, wire: Wire)
    requires Tail(text) == "" && IndexOfNewline(tail) == -1
    ensures Answer(text + tail, wire) == Answer(text, wire)
  {
    CarryTail(text, tail);
    assert "" + tail == tail;
    assert CompleteLines(text) + [] == CompleteLines(text);
  }

  // ---- The calls, by position ------------------------------------------------------------

  /** The positions of the pieces of a call, in order. */
  ghost predicate ArePositions(pieces: seq<Piece>, index: int, at: seq<nat>) {
    && (forall j :: 0 <= j < |at| ==> at[j] < |pieces| && pieces[at[j]].index == index)
    && (forall i, j :: 0 <= i < j < |at| ==> at[i] < at[j])
    && (forall k: nat :: k < |pieces| && pieces[k].index == index ==> k in at)
  }

  /** The argument texts of some pieces. */
  ghost predicate AreArguments(pieces: seq<Piece>, at: seq<nat>, args: seq<string>) {
    |args| == |at| && forall j :: 0 <= j < |at| ==> at[j] < |pieces| && args[j] == pieces[at[j]].args
  }

  /** The argument text of a call is the argument texts of its pieces, joined in the order of the stream. */
  lemma {:induction false} ArgumentsInOrder(pieces: seq<Piece>, index: int, at: seq<nat>, args: seq<string>)
    requires ArePositions(pieces, index, at)
    requires |args| == |at| && forall j :: 0 <= j < |at| ==> args[j] == pieces[at[j]].args
    ensures Assembled(pieces, index).args == Concat(args)
    decreases |pieces|
  {
    if pieces == [] {
      assert args == [];
    } else {
      var rest, last := pieces[..|pieces| - 1], pieces[|pieces| - 1];
      assert pieces == rest + [last];
      AssembledAppend(rest, last, index);
      if last.index == index {
        var n := |at| - 1;
        LastPosition(pieces, index, at);
        LastArguments(pieces, at, args);
        ArgumentsInOrder(rest, index, at[..n], args[..n]);
        ConcatAppend(args[..n], last.args);
      } else {
        EarlierPositions(pieces, index, at);
        ArgumentsInOrder(rest, index, at, args);
      }
    }
  }

  lemma LastArguments(pieces: seq<Piece>, at: seq<nat>, args: seq<string>)
    requires at != [] && pieces != [] && at[|at| - 1] == |pieces| - 1 && AreArguments(pieces, at, args)
    requires forall j :: 0 <= j < |at| - 1 ==> at[j] < |pieces| - 1
    ensures args == args[..|at| - 1] + [pieces[|pieces| - 1].args]
    ensures AreArguments(pieces[..|pieces| - 1], at[..|at| - 1], args[..|at| - 1])
  {
  }

  lemma EarlierPositions(pieces: seq<Piece>, index: int, at: seq<nat>)
    requires ArePositions(pieces, index, at) && pieces != [] && pieces[|pieces| - 1].index != index
    ensures ArePositions(pieces[..|pieces| - 1], index, at)
  {
  }

  lemma LastPosition(pieces: seq<Piece>, index: int, at: seq<nat>)
    requires ArePositions(pieces, index, at) && pieces != [] && pieces[|pieces| - 1].index == index
    ensures at != [] && at[|at| - 1] == |pieces| - 1
    ensures ArePositions(pieces[..|pieces| - 1], index, at[..|at| - 1])
  {
    var n := |pieces| - 1;
    assert n in at;
    var j :| 0 <= j < |at| && at[j] == n;
    assert at[j] <= at[|at| - 1];
    forall k: nat | k < n && pieces[k].index == index ensures k in at[..|at| - 1] {
      assert k in at;
    }
  }

  /** The id of a call is the last one given that is not empty. */
  lemma {:induction false} LastIdWins(pieces: seq<Piece>, index: int, k: nat)
    requires k < |pieces| && pieces[k].index == index && pieces[k].id != ""
    requires forall j :: k < j < |pieces| && pieces[j].index == index ==> pieces[j].id == ""
    ensures Assembled(pieces, index).id == pieces[k].id
  {
    var n := |pieces| - 1;
    assert pieces == pieces[..n] + [pieces[n]];
    AssembledAppend(pieces[..n], pieces[n], index);
    if k < n {
      LastIdWins(pieces[..n], index, k);
    }
  }

  /** And so is its name. */
  lemma {:induction false} LastNameWins(pieces: seq<Piece>, index: int, k: nat)
    requires k < |pieces| && pieces[k].index == index && pieces[k].name != ""
    requires forall j :: k < j < |pieces| && pieces[j].index == index ==> pieces[j].name == ""
    ensures Assembled(pieces, index).name == pieces[k].name
  {
    var n := |pieces| - 1;
    assert pieces == pieces[..n] + [pieces[n]];
    AssembledAppend(pieces[..n], pieces[n], index);
    if k < n {
      LastNameWins(pieces[..n], index, k);
    }
  }

  /** A call that was given no id has the empty one, and the same goes for names. */
  lemma {:induction false} NothingGiven(pieces: seq<Piece>, index: int)
    ensures (forall j :: 0 <= j < |pieces| && pieces[j].index == index ==> pieces[j].id == "") ==>
      Assembled(pieces, index).id == ""
    ensures (forall j :: 0 <= j < |pieces| && pieces[j].index == index ==> pieces[j].name == "") ==>
      Assembled(pieces, index).name == ""
  {
    if pieces != [] {
      var n := |pieces| - 1;
      assert pieces == pieces[..n] + [pieces[n]];
      AssembledAppend(pieces[..n], pieces[n], index);
      NothingGiven(pieces[..n], index);
    }
  }

  /** Calls are in order of first appearance: before any piece of a call, the calls before it have appeared. */
  lemma {:induction false} FirstAppearanceOrder(pieces: seq<Piece>, j: nat, k: nat, b: nat)
    requires j < k < |Indexes(pieces)| && b < |pieces| && pieces[b].index == Indexes(pieces)[k]
    ensures exists a :: 0 <= a < b && pieces[a].index == Indexes(pieces)[j]
  {
    var n := |pieces| - 1;
    var rest := pieces[..n];
    OneCallPerIndex(pieces);
    if b < n {
      OneCallPerIndex(rest);
      assert rest[b].index in Indexes(rest);
      FirstAppearanceOrder(rest, j, k, b);
      var a :| 0 <= a < b && rest[a].index == Indexes(rest)[j];
      assert pieces[a].index == Indexes(pieces)[j];
    } else {
      OneCallPerIndex(rest);
      assert Indexes(pieces)[j] in Indexes(rest);
      var a :| 0 <= a < |rest| && rest[a].index == Indexes(pieces)[j];
      assert pieces[a].index == Indexes(pieces)[j];
    }
  }

  // ---- From the text to the items ------------------------------------------------------------

  /** Whatever white space is around it and whichever line ending follows, the payload of a data line is the
      done mark if it is [DONE], and else reaches the JSON parser as it is. */
  lemma DataLineReachesParser(pre: string, gap: string, p: string, post: string, wire: Wire)
    requires IsBlank(pre) && IsBlank(gap) && IsBare(p) && IsBlank(post)
    ensures Items(CompleteLines(pre + ("data: " + gap + p) + post + "\n"), wire) ==
      if p == "[DONE]" then [DoneMark]
      else match wire.event(p)
        case Some(event) => [Parsed(event)]
        case None => []
  {
    PayloadOfDataLine(gap, p);
    ReadTrimmed(pre, "data: " + gap + p, post);
    ItemsOfLine("data: " + gap + p, wire);
  }

  /** Any other line carries nothing. */
  lemma OtherLineHasNoItem(pre: string, core: string, post: string, wire: Wire)
    requires IsBlank(pre) && IsBare(core) && IsBlank(post)
    requires |core| < 6 || core[..6] != "data: "
    ensures Items(CompleteLines(pre + core + post + "\n"), wire) == []
  {
    NoPayload(core);
    ReadTrimmed(pre, core, post);
    ItemsOfLine(core, wire);
  }

  lemma BlankLineHasNoItem(blank: string, wire: Wire)
    requires IsBlank(blank)
    ensures Items(CompleteLines(blank + "\n"), wire) == []
  {
    ReadBlank(blank);
    ItemsOfLine("", wire);
  }

  lemma ItemsOfLine(line: string, wire: Wire)
    ensures Items([line], wire) == ItemsAfter([], ItemOf(line, wire))
  {
    LineAppend([], line, wire);
    assert [] + [line] == [line];
  }

  function ParsedAll(events: seq<Event>): (items: seq<Item>)
    ensures |items| == |events| && forall k :: 0 <= k < |events| ==> items[k] == Parsed(events[k])
  {
    seq(|events|, k requires 0 <= k < |events| => Parsed(events[k]))
  }

  lemma OneEventMore(payloads: seq<string>, events: seq<Event>, p: string, event: Event, wire: Wire)
    requires IsBare(p) && p != "[DONE]" && forall k :: 0 <= k < |payloads| ==> IsBare(payloads[k])
    requires wire.event(p) == Some(event) && Items(CompleteLines(DataText(payloads)), wire) == ParsedAll(events)
    ensures Items(CompleteLines(DataText(payloads + [p])), wire) == ParsedAll(events + [event])
  {
    OneItemMore(payloads, p, wire);
    ItemOfEvent(p, event, wire);
    ParsedAllAppend(Items(CompleteLines(DataText(payloads)), wire), events, event);
  }

  lemma ParsedAllAppend(items: seq<Item>, events: seq<Event>, event: Event)
    requires items == ParsedAll(events)
    ensures ItemsAfter(items, Some(Parsed(event))) == ParsedAll(events + [event])
  {
  }

  lemma ItemOfEvent(p: string, event: Event, wire: Wire)
    requires p != "[DONE]" && wire.event(p) == Some(event)
    ensures ItemOfData(p, wire) == Some(Parsed(event))
  {
  }

  /** The items of data lines with these payloads, each of which has an event. */
  lemma {:induction false} StreamedItems(payloads: seq<string>, events: seq<Event>, wire: Wire)
    requires |events| == |payloads|
    requires forall k :: 0 <= k < |events| ==> IsBare(payloads[k]) && payloads[k] != "[DONE]"
    requires forall k :: 0 <= k < |events| ==> wire.event(payloads[k]) == Some(events[k])
    ensures Items(CompleteLines(DataText(payloads)), wire) == ParsedAll(events)
  {
    if payloads != [] {
      var n := |payloads| - 1;
      assert payloads == payloads[..n] + [payloads[n]] && events == events[..n] + [events[n]];
      StreamedItems(payloads[..n], events[..n], wire);
      OneEventMore(payloads[..n], events[..n], payloads[n], events[n], wire);
    }
  }

  lemma StreamedDone(payloads: seq<string>, wire: Wire)
    requires forall k :: 0 <= k < |payloads| ==> IsBare(payloads[k])
    ensures Items(CompleteLines(DataText(payloads + ["[DONE]"])), wire)
         == Items(CompleteLines(DataText(payloads)), wire) + [DoneMark]
  {
    DoneIsBare();
    OneItemMore(payloads, "[DONE]", wire);
  }

  lemma DoneIsBare()
    ensures IsBare("[DONE]")
  {
    SpacesAndOthers();
  }

  lemma OneItemMore(payloads: seq<string>, p: string, wire: Wire)
    requires IsBare(p) && forall k :: 0 <= k < |payloads| ==> IsBare(payloads[k])
    ensures Items(CompleteLines(DataText(payloads + [p])), wire) ==
      ItemsAfter(Items(CompleteLines(DataText(payloads)), wire), ItemOfData(p, wire))
  {
    OneDataLineMore(payloads, p);
    PayloadOfDataLine("", p);
    LineAppend(CompleteLines(DataText(payloads)), "data: " + "" + p, wire);
  }

  /** The events of one tool call, whose id and name come with the first fragment of its arguments. */
  function CallEvents(id: string, name: string, args: seq<string>): (events: seq<Event>)
    ensures |events| == |args|
    ensures forall k :: 0 <= k < |args| ==>
      events[k] == Event("", [Fragment(Some(0), if k == 0 then id else "", if k == 0 then name else "", args[k])], None)
  {
    seq(|args|, k requires 0 <= k < |args| =>
      Event("", [Fragment(Some(0), if k == 0 then id else "", if k == 0 then name else "", args[k])], None))
  }

  lemma OneFragmentMore(items: seq<Item>, f: Fragment)
    requires f.index == Some(0)
    ensures Indexes(Resolve(Fragments(items + [Parsed(Event("", [f], None))]))) ==
      if 0 in Indexes(Resolve(Fragments(items))) then Indexes(Resolve(Fragments(items)))
      else Indexes(Resolve(Fragments(items))) + [0]
    ensures Assembled(Resolve(Fragments(items + [Parsed(Event("", [f], None))])), 0) ==
      Merge(Assembled(Resolve(Fragments(items)), 0), f.id, f.name, f.args)
    ensures LastUsage(items + [Parsed(Event("", [f], None))]) == LastUsage(items)
  {
    var pieces, p := Resolve(Fragments(items)), Piece(0, f.id, f.name, f.args);
    ItemAppend(items, Parsed(Event("", [f], None)));
    ResolveAppend(Fragments(items), f);
    IndexesAppend(pieces, p);
    AssembledAppend(pieces, p, 0);
  }

  lemma {:induction false} OneCall(id: string, name: string, args: seq<string>)
    requires args != []
    ensures Indexes(Resolve(Fragments(ParsedAll(CallEvents(id, name, args))))) == [0]
    ensures Assembled(Resolve(Fragments(ParsedAll(CallEvents(id, name, args)))), 0)
         == PendingCall(id, name, Concat(args))
    ensures LastUsage(ParsedAll(CallEvents(id, name, args))) == None
  {
    var n := |args| - 1;
    var rest := ParsedAll(CallEvents(id, name, args[..n]));
    var f := Fragment(Some(0), if n == 0 then id else "", if n == 0 then name else "", args[n]);
    assert ParsedAll(CallEvents(id, name, args)) == rest + [Parsed(Event("", [f], None))];
    assert args == args[..n] + [args[n]];
    ConcatAppend(args[..n], args[n]);
    OneFragmentMore(rest, f);
    if n > 0 {
      OneCall(id, name, args[..n]);
    } else {
      assert rest == [] && args[..n] == [];
    }
  }

  lemma {:induction false} NoText(items: seq<Item>)
    requires forall k :: 0 <= k < |items| ==> items[k].Parsed? && items[k].event.content == ""
    ensures TextChunks(items) == [] && DoneMark !in items
  {
    if items != [] {
      NoText(items[..|items| - 1]);
    }
  }

  /** Items that amount to one call and nothing else. */
  ghost predicate AmountToCall(items: seq<Item>, call: PendingCall) {
    && Calls(Resolve(Fragments(items))) == [call]
    && LastUsage(items) == None && TextChunks(items) == [] && DoneMark !in items
  }

  lemma CallEventsAmount(id: string, name: string, args: seq<string>)
    requires args != []
    ensures AmountToCall(ParsedAll(CallEvents(id, name, args)), PendingCall(id, name, Concat(args)))
  {
    OneCall(id, name, args);
    NoText(ParsedAll(CallEvents(id, name, args)));
  }

  lemma AnswerOfCall(text: string, items: seq<Item>, call: PendingCall, json: Json, wire: Wire)
    requires Items(CompleteLines(text), wire) == items + [DoneMark] && AmountToCall(items, call)
    requires wire.arguments.parse(call.args) == Some(json)
    ensures Answer(text, wire) == [ToolCall(AdapterToolCall(call.id, call.name, json)), Done(None)]
  {
    OneDoneOutput(items, wire);
    EmittedCall(call, wire.arguments, json);
  }

  /** A stream of one tool call: its argument text is joined, parsed and emitted at the done mark. */
  lemma StreamedCall(payloads: seq<string>, id: string, name: string, args: seq<string>, json: Json, wire: Wire)
    requires |payloads| == |args| > 0
    requires forall k :: 0 <= k < |args| ==> IsBare(payloads[k]) && payloads[k] != "[DONE]"
    requires forall k :: 0 <= k < |args| ==> wire.event(payloads[k]) == Some(CallEvents(id, name, args)[k])
    requires wire.arguments.parse(Concat(args)) == Some(json)
    ensures Answer(DataText(payloads + ["[DONE]"]), wire) == [ToolCall(AdapterToolCall(id, name, json)), Done(None)]
  {
    var items := ParsedAll(CallEvents(id, name, args));
    StreamedItems(payloads, CallEvents(id, name, args), wire);
    StreamedDone(payloads, wire);
    CallEventsAmount(id, name, args);
    AnswerOfCall(DataText(payloads + ["[DONE]"]), items, PendingCall(id, name, Concat(args)), json, wire);
  }

  function ContentEvents(texts: seq<string>): (events: seq<Event>)
    ensures |events| == |texts| && forall k :: 0 <= k < |texts| ==> events[k] == Event(texts[k], [], None)
  {
    seq(|texts|, k requires 0 <= k < |texts| => Event(texts[k], [], None))
  }

  lemma {:induction false} TextsOnly(texts: seq<string>)
    requires forall k :: 0 <= k < |texts| ==> texts[k] != ""
    ensures TextChunks(ParsedAll(ContentEvents(texts))) == TextsAsChunks(texts)
    ensures DoneMark !in ParsedAll(ContentEvents(texts))
  {
    if texts != [] {
      var n := |texts| - 1;
      TextsOnly(texts[..n]);
      assert ParsedAll(ContentEvents(texts))[..n] == ParsedAll(ContentEvents(texts[..n]));
      assert TextsAsChunks(texts) == TextsAsChunks(texts[..n]) + [Text(texts[n])];
    }
  }

  /** A stream of text: the answer is the text of each payload in turn, and the end. */
  lemma StreamedText(payloads: seq<string>, texts: seq<string>, wire: Wire)
    requires |payloads| == |texts|
    requires forall k :: 0 <= k < |texts| ==> IsBare(payloads[k]) && payloads[k] != "[DONE]" && texts[k] != ""
    requires forall k :: 0 <= k < |texts| ==> wire.event(payloads[k]) == Some(Event(texts[k], [], None))
    ensures Answer(DataText(payloads), wire) == TextsAsChunks(texts) + [Done(None)]
  {
    StreamedItems(payloads, ContentEvents(texts), wire);
    TextsOnly(texts);
    WithoutDoneOnlyText(ParsedAll(ContentEvents(texts)), wire);
    AnswerOf(DataText(payloads), ParsedAll(ContentEvents(texts)), wire);
  }

  lemma AnswerOf(text: string, items: seq<Item>, wire: Wire)
    requires Items(CompleteLines(text), wire) == items
    ensures Answer(text, wire) == Output(items, wire) + [Done(None)]
  {
  }
}
