/** Cutting decoded text into lines, whatever network fragments it arrives in. */
module Lines {
  import opened Sequences
  import opened Wrappers

  // ---- String primitives of the host language --------------------------------

  /** White space and line terminators, as String.prototype.trim removes them. */
  predicate IsSpace(c: char) {
    '\t' <= c <= '\r' || c == ' ' || c == '\U{00A0}' || c == '\U{1680}' || '\U{2000}' <= c <= '\U{200A}'
    || c == '\U{2028}' || c == '\U{2029}' || c == '\U{202F}' || c == '\U{205F}' || c == '\U{3000}' || c == '\U{FEFF}'
  }

  function TrimEnd(s: string): string {
    if s != [] && IsSpace(s[|s| - 1]) then TrimEnd(s[..|s| - 1]) else s
  }

  function TrimStart(s: string): string {
    if s != [] && IsSpace(s[0]) then TrimStart(s[1..]) else s
  }

  function Trim(s: string): string {
    TrimStart(TrimEnd(s))
  }

  /** buffer.indexOf("\n") */
  function IndexOfNewline(s: string): (i: int)
    ensures -1 <= i < |s|
  {
    if s == [] then -1
    else if s[0] == '\n' then 0
    else
      var i := IndexOfNewline(s[1..]);
      if i == -1 then -1 else i + 1
  }

  /** buffer.search(/\r?\n/): the leftmost match starts at a CR only if an LF follows it. */
  function SearchLineBreak(s: string): (i: int)
    ensures -1 <= i < |s|
  {
    if s == [] then -1
    else if IsLineBreak(s, 0) then 0
    else
      var i := SearchLineBreak(s[1..]);
      if i == -1 then -1 else i + 1
  }

  predicate IsLineBreak(s: string, i: nat)
    requires i < |s|
  {
    s[i] == '\n' || (s[i] == '\r' && i + 1 < |s| && s[i + 1] == '\n')
  }

  function Concat(fragments: seq<string>): string {
    if fragments == [] then [] else fragments[0] + Concat(fragments[1..])
  }

  lemma {:induction false} ConcatAppend(fragments: seq<string>, last: string)
    ensures Concat(fragments + [last]) == Concat(fragments) + last
  {
    if fragments == [] {
      assert fragments + [last] == [last];
    } else {
      ConcatAppend(fragments[1..], last);
      assert (fragments + [last])[1..] == fragments[1..] + [last];
    }
  }

  /** Moving the first of the remaining fragments to the text already read. */
  lemma ConcatFirst(text: string, fragments: seq<string>, k: nat)
    requires k < |fragments|
    ensures text + Concat(fragments[k..]) == (text + fragments[k]) + Concat(fragments[k + 1..])
  {
    assert fragments[k..][1..] == fragments[k + 1..];
  }

  // ---- What a text says ---------------------------------------------------------

  /** The terminated lines of a text, trimmed. */
  function CompleteLines(text: string): seq<string> {
    var i := IndexOfNewline(text);
    if i == -1 then [] else [Trim(text[..i])] + CompleteLines(text[i + 1..])
  }

  /** What follows the last line terminator. */
  function Tail(text: string): string {
    var i := IndexOfNewline(text);
    if i == -1 then text else Tail(text[i + 1..])
  }

  lemma {:induction false} IndexAfterLine(line: string, rest: string)
    requires '\n' !in line
    ensures IndexOfNewline(line + "\n" + rest) == |line|
  {
    var text := line + "\n" + rest;
    if line != "" {
      assert text[0] == line[0] && line[0] in line;
      assert text[1..] == line[1..] + "\n" + rest;
      IndexAfterLine(line[1..], rest);
    }
  }

  lemma FirstLine(line: string, rest: string)
    requires '\n' !in line
    ensures CompleteLines(line + "\n" + rest) == [Trim(line)] + CompleteLines(rest)
    ensures Tail(line + "\n" + rest) == Tail(rest)
  {
    var text := line + "\n" + rest;
    IndexAfterLine(line, rest);
    assert text[..|line|] == line && text[|line| + 1..] == rest;
  }

  lemma {:induction false} FirstNewline(text: string)
    ensures IndexOfNewline(text) == -1 ==> '\n' !in text
    ensures IndexOfNewline(text) >= 0 ==> text[IndexOfNewline(text)] == '\n'
    ensures forall k :: 0 <= k < IndexOfNewline(text) ==> text[k] != '\n'
  {
    if text != "" && text[0] != '\n' {
      var rest := text[1..];
      FirstNewline(rest);
      assert text == [text[0]] + rest;
      forall k | 0 <= k < IndexOfNewline(text) ensures text[k] != '\n' {
        assert k > 0 ==> text[k] == rest[k - 1];
      }
    }
  }

  /** A text with a line feed is a first line and a rest; without one it is a tail. */
  lemma CutFirstLine(text: string)
    ensures IndexOfNewline(text) == -1 ==> '\n' !in text
    ensures IndexOfNewline(text) >= 0 ==>
      && text == text[..IndexOfNewline(text)] + "\n" + text[IndexOfNewline(text) + 1..]
      && '\n' !in text[..IndexOfNewline(text)]
  {
    FirstNewline(text);
  }

  /** The two searches meet: a match starts at the first LF, or at a CR just before it. */
  lemma {:induction false} SearchMeetsIndexOf(s: string)
    ensures var i := IndexOfNewline(s);
      SearchLineBreak(s) == if i > 0 && s[i - 1] == '\r' then i - 1 else i
    ensures IndexOfNewline(s) >= 0 ==> s[IndexOfNewline(s)] == '\n'
  {
    if s != "" {
      SearchMeetsIndexOf(s[1..]);
    }
  }

  /** Carrying the unterminated tail over to the next fragment loses nothing. */
  lemma {:induction false} CarryTail(a: string, b: string)
    ensures CompleteLines(a + b) == CompleteLines(a) + CompleteLines(Tail(a) + b)
    ensures Tail(a + b) == Tail(Tail(a) + b)
    decreases |a|
  {
    var i := IndexOfNewline(a);
    if i >= 0 {
      CutFirstLine(a);
      CarryTail(a[i + 1..], b);
      CarryLine(a[..i], a[i + 1..], b);
    }
  }

  /** After a terminated line nothing is carried over. */
  lemma CarryNothing(a: string, b: string)
    requires Tail(a) == ""
    ensures CompleteLines(a + b) == CompleteLines(a) + CompleteLines(b)
    ensures Tail(a + b) == Tail(b)
  {
    CarryTail(a, b);
    assert "" + b == b;
  }

  lemma CarryLine(line: string, rest: string, b: string)
    requires '\n' !in line
    requires CompleteLines(rest + b) == CompleteLines(rest) + CompleteLines(Tail(rest) + b)
    requires Tail(rest + b) == Tail(Tail(rest) + b)
    ensures CompleteLines(line + "\n" + rest + b)
         == CompleteLines(line + "\n" + rest) + CompleteLines(Tail(line + "\n" + rest) + b)
    ensures Tail(line + "\n" + rest + b) == Tail(Tail(line + "\n" + rest) + b)
  {
    FirstLine(line, rest);
    FirstLine(line, rest + b);
    Regroup(line + "\n", rest, b);
    Regroup([Trim(line)], CompleteLines(rest), CompleteLines(Tail(rest) + b));
  }

  lemma CutCarriageReturn(s: string)
    requires s != [] && s[|s| - 1] == '\r'
    ensures Trim(s) == Trim(s[..|s| - 1])
  {
  }

  lemma NewlineStep(buffer: string, i: nat)
    requires i == IndexOfNewline(buffer)
    ensures CompleteLines(buffer) == [Trim(buffer[..i])] + CompleteLines(buffer[i + 1..])
    ensures Tail(buffer) == Tail(buffer[i + 1..])
  {
  }

  /** A carriage return at the end of a line makes no difference once the line is trimmed. */
  lemma TrimBeforeBreak(buffer: string, idx: nat, i: nat)
    requires idx <= i < |buffer| && (i == idx || (i == idx + 1 && buffer[idx] == '\r'))
    ensures Trim(buffer[..i]) == Trim(buffer[..idx])
  {
    if i == idx + 1 {
      CutCarriageReturn(buffer[..i]);
      assert buffer[..i][..idx] == buffer[..idx];
    }
  }

  lemma BreakAtNewline(buffer: string, idx: nat)
    requires idx == SearchLineBreak(buffer)
    ensures IndexOfNewline(buffer) == if buffer[idx] == '\r' then idx + 1 else idx
  {
    SearchMeetsIndexOf(buffer);
  }

  lemma CutAtNewline(buffer: string, idx: nat, i: nat, next: nat)
    requires i == IndexOfNewline(buffer) && next == i + 1
    requires idx <= i && (i == idx || (i == idx + 1 && buffer[idx] == '\r'))
    ensures CompleteLines(buffer) == [Trim(buffer[..idx])] + CompleteLines(buffer[next..])
    ensures Tail(buffer) == Tail(buffer[next..])
  {
    NewlineStep(buffer, i);
    TrimBeforeBreak(buffer, idx, i);
  }

  /** Cutting at \r?\n takes the same first line and leaves the same rest as cutting at \n. */
  lemma LineBreakStep(buffer: string, idx: nat, next: nat)
    requires idx == SearchLineBreak(buffer)
    requires next == idx + (if buffer[idx] == '\r' then 2 else 1)
    ensures next <= |buffer|
    ensures CompleteLines(buffer) == [Trim(buffer[..idx])] + CompleteLines(buffer[next..])
    ensures Tail(buffer) == Tail(buffer[next..])
  {
    BreakAtNewline(buffer, idx);
    CutAtNewline(buffer, idx, next - 1, next);
  }

  lemma NoLineBreakNoLines(buffer: string)
    requires SearchLineBreak(buffer) == -1
    ensures CompleteLines(buffer) == [] && Tail(buffer) == buffer
  {
  }

  // ---- Independence of the line ending -----------------------------------------

  /** Lines written out, each ended by CR LF where crlf says so and by LF otherwise. */
  function WriteLines(lines: seq<string>, crlf: seq<bool>): string
    requires |crlf| == |lines|
  {
    if lines == [] then []
    else lines[0] + LineEnding(crlf[0]) + WriteLines(lines[1..], crlf[1..])
  }

  function TrimAll(lines: seq<string>): (trimmed: seq<string>)
    ensures |trimmed| == |lines| && forall i :: 0 <= i < |lines| ==> trimmed[i] == Trim(lines[i])
  {
    seq(|lines|, i requires 0 <= i < |lines| => Trim(lines[i]))
  }

  lemma TrimAllFirst(lines: seq<string>)
    requires lines != []
    ensures TrimAll(lines) == [Trim(lines[0])] + TrimAll(lines[1..])
  {
  }

  function LineEnding(crlf: bool): string {
    if crlf then "\r\n" else "\n"
  }

  lemma ReadWrittenLine(line: string, crlf: bool, rest: string)
    requires '\n' !in line
    ensures CompleteLines(line + LineEnding(crlf) + rest) == [Trim(line)] + CompleteLines(rest)
    ensures Tail(line + LineEnding(crlf) + rest) == Tail(rest)
  {
    if crlf {
      var first := line + ['\r'];
      assert first[..|line|] == line;
      CutCarriageReturn(first);
      FirstLine(first, rest);
      assert line + LineEnding(crlf) == first + "\n";
    } else {
      FirstLine(line, rest);
    }
  }

  lemma WriteFirst(lines: seq<string>, crlf: seq<bool>, tail: string)
    requires |crlf| == |lines| > 0
    ensures WriteLines(lines, crlf) + tail
         == lines[0] + LineEnding(crlf[0]) + (WriteLines(lines[1..], crlf[1..]) + tail)
  {
    Regroup(lines[0] + LineEnding(crlf[0]), WriteLines(lines[1..], crlf[1..]), tail);
  }

  /** Lines without line feeds are read back, trimmed, whichever line endings they were written with. */
  lemma {:induction false} ReadWrittenLines(lines: seq<string>, crlf: seq<bool>, tail: string)
    requires |crlf| == |lines| && '\n' !in tail
    requires forall i :: 0 <= i < |lines| ==> '\n' !in lines[i]
    ensures CompleteLines(WriteLines(lines, crlf) + tail) == TrimAll(lines)
    ensures Tail(WriteLines(lines, crlf) + tail) == tail
  {
    if lines == [] {
      assert WriteLines(lines, crlf) + tail == tail;
      CutFirstLine(tail);
    } else {
      ReadWrittenLines(lines[1..], crlf[1..], tail);
      WriteFirst(lines, crlf, tail);
      ReadWrittenLine(lines[0], crlf[0], WriteLines(lines[1..], crlf[1..]) + tail);
      TrimAllFirst(lines);
    }
  }

  // ---- Event lines ---------------------------------------------------------------

  /** The payload of a trimmed line, if the line is a data line. */
  function Payload(line: string): Option<string> {
    if "data: " <= line then Some(Trim(line[6..])) else None
  }

  // ---- What a line says, in full ---------------------------------------------------

  /** White space within a line. */
  predicate IsBlank(s: string) {
    forall i :: 0 <= i < |s| ==> IsSpace(s[i]) && s[i] != '\n'
  }

  /** Something that neither starts nor ends with white space, within a line. */
  predicate IsBare(s: string) {
    s != "" && !IsSpace(s[0]) && !IsSpace(s[|s| - 1]) && forall i :: 0 <= i < |s| ==> s[i] != '\n'
  }

  /** Some characters on either side of the definition of white space. */
  lemma SpacesAndOthers()
    ensures IsSpace(' ') && IsSpace('\t') && IsSpace('\n') && IsSpace('\r')
    ensures forall c :: '!' <= c <= '~' ==> !IsSpace(c)
  {
  }

  lemma {:induction false} TrimEndOf(s: string, post: string)
    requires IsBlank(post) && (s == "" || !IsSpace(s[|s| - 1]))
    ensures TrimEnd(s + post) == s
    decreases |post|
  {
    if post == "" {
      assert s + post == s;
    } else {
      var n := |post| - 1;
      TrimEndOf(s, post[..n]);
      TrimOneMore(s + post[..n], post[n]);
      assert s + post == (s + post[..n]) + [post[n]];
    }
  }

  lemma TrimOneMore(s: string, c: char)
    requires IsSpace(c)
    ensures TrimEnd(s + [c]) == TrimEnd(s)
  {
    assert (s + [c])[..|s|] == s;
  }

  lemma {:induction false} TrimStartOf(pre: string, s: string)
    requires IsBlank(pre) && (s == "" || !IsSpace(s[0]))
    ensures TrimStart(pre + s) == s
  {
    if pre == "" {
      assert pre + s == s;
    } else {
      TrimStartOf(pre[1..], s);
      assert (pre + s)[1..] == pre[1..] + s;
    }
  }

  /** Trimming takes the white space off both ends, and nothing else. */
  lemma TrimExact(pre: string, core: string, post: string)
    requires IsBlank(pre) && IsBare(core) && IsBlank(post)
    ensures Trim(pre + core + post) == core
  {
    TrimEndOf(pre + core, post);
    TrimStartOf(pre, core);
  }

  lemma TrimBlank(s: string)
    requires IsBlank(s)
    ensures Trim(s) == ""
  {
    TrimEndOf("", s);
    assert "" + s == s;
  }

  /** A terminated line is read back without the white space around it; a carriage return is white space. */
  lemma ReadTrimmed(pre: string, core: string, post: string)
    requires IsBlank(pre) && IsBare(core) && IsBlank(post)
    ensures CompleteLines(pre + core + post + "\n") == [core] && Tail(pre + core + post + "\n") == ""
  {
    TrimExact(pre, core, post);
    FirstLine(pre + core + post, "");
    assert pre + core + post + "\n" + "" == pre + core + post + "\n";
  }

  lemma ReadBlank(s: string)
    requires IsBlank(s)
    ensures CompleteLines(s + "\n") == [""] && Payload("") == None
  {
    TrimBlank(s);
    FirstLine(s, "");
    assert s + "\n" + "" == s + "\n";
  }

  /** The payload of a data line is what follows the prefix, without the white space around it. */
  lemma PayloadOfDataLine(gap: string, p: string)
    requires IsBlank(gap) && IsBare(p)
    ensures IsBare("data: " + gap + p) && Payload("data: " + gap + p) == Some(p)
  {
    var line := "data: " + gap + p;
    SpacesAndOthers();
    assert line[0] == 'd' && line[|line| - 1] == p[|p| - 1];
    assert line[..6] == "data: " && line[6..] == gap + p;
    TrimExact(gap, p, "");
    assert gap + p + "" == gap + p;
  }

  lemma NoPayload(core: string)
    requires |core| < 6 || core[..6] != "data: "
    ensures Payload(core) == None
  {
  }

  function DataLine(p: string): string {
    "data: " + p + "\r\n"
  }

  /** Data lines with these payloads, one after the other. */
  function DataText(payloads: seq<string>): string {
    if payloads == [] then ""
    else DataText(payloads[..|payloads| - 1]) + DataLine(payloads[|payloads| - 1])
  }

  lemma DropNothing(a: string, p: string, b: string, c: string)
    ensures "" + (a + "" + p) + b + c == a + p + (b + c)
  {
  }

  /** A data line ends where the next one starts. */
  lemma ReadDataLine(p: string)
    requires IsBare(p)
    ensures CompleteLines(DataLine(p)) == ["data: " + "" + p] && Tail(DataLine(p)) == ""
  {
    SpacesAndOthers();
    PayloadOfDataLine("", p);
    ReadTrimmed("", "data: " + "" + p, "\r");
    DropNothing("data: ", p, "\r", "\n");
    assert "\r" + "\n" == "\r\n";
  }

  lemma DataTextAppend(payloads: seq<string>, p: string)
    ensures DataText(payloads + [p]) == DataText(payloads) + DataLine(p)
  {
    assert (payloads + [p])[..|payloads|] == payloads;
  }

  lemma OneLineMore(text: string, line: string, core: string)
    requires Tail(text) == "" && CompleteLines(line) == [core] && Tail(line) == ""
    ensures CompleteLines(text + line) == CompleteLines(text) + [core] && Tail(text + line) == ""
  {
    CarryNothing(text, line);
  }

  lemma {:induction false} DataTextEnds(payloads: seq<string>)
    requires forall k :: 0 <= k < |payloads| ==> IsBare(payloads[k])
    ensures Tail(DataText(payloads)) == ""
  {
    if payloads != [] {
      var rest, p := payloads[..|payloads| - 1], payloads[|payloads| - 1];
      DataTextEnds(rest);
      ReadDataLine(p);
      OneLineMore(DataText(rest), DataLine(p), "data: " + "" + p);
    }
  }

  /** The lines of one data line more. */
  lemma OneDataLineMore(payloads: seq<string>, p: string)
    requires IsBare(p) && forall k :: 0 <= k < |payloads| ==> IsBare(payloads[k])
    ensures CompleteLines(DataText(payloads + [p])) == CompleteLines(DataText(payloads)) + ["data: " + "" + p]
  {
    DataTextEnds(payloads);
    ReadDataLine(p);
    DataTextAppend(payloads, p);
    OneLineMore(DataText(payloads), DataLine(p), "data: " + "" + p);
  }
}
