/** The shorthand-to-braces converter of GQLConverter.js: `parseLine` and
    `convertToGraphql`.

    The conversion is specified twice. `Run`, `Translate` and `Convert` say
    what one pass over the lines produces, as a sequence of `Emitted` lines
    that `Render` turns into text; `ConvertToGraphql` is the single
    imperative pass of the source, with its stack and its growing output
    string, proved to return exactly `Convert` of its input. */
module GqlConverter {
  import opened JsString

  /** What `parseLine` returns for one line. */
  datatype LineRecord = LineRecord(indentLevel: nat, content: string)

  /** The source's frames are `{ indentLevel }` objects and nothing else, so
      a stack is the sequence of their levels, bottom first. */
  type Stack = seq<nat>

  /** The one failure of a conversion: the `]` branch asks the top frame for
      its `content`, which no frame has, and `undefined.endsWith` throws a
      TypeError out of `convertToGraphql`. */
  datatype ConvertError = UndefinedFrameContent

  datatype Result<T> = Ok(value: T) | Failure(error: ConvertError)

  /** One line of output, by what produced it. */
  datatype Emitted =
    | Close(level: nat)                  // `closeBrace` for a popped frame
    | BlockOpen(level: nat, name: string) // a line ending in `:`
    | ListOpen(level: nat, text: string)  // a line ending in `[`
    | ListClose(level: nat)              // a lone `]`
    | Plain(level: nat, text: string)     // any other line

  /** The state between two lines: the open frames and what was emitted. */
  datatype State = State(stack: Stack, emitted: seq<Emitted>)

  /** `"  ".repeat(n)`: two spaces per unit of `n`. */
  function Pad(n: nat): (r: string)
    ensures |r| == 2 * n
    ensures forall k :: 0 <= k < |r| ==> r[k] == ' '
  {
    if n == 0 then [] else "  " + Pad(n - 1)
  }

  /** `closeBrace`: the line that closes a frame opened at `level`. */
  function CloseBrace(level: nat): (r: string)
    ensures |r| == 2 * level + 2
    ensures forall k :: 0 <= k < 2 * level ==> r[k] == ' '
    ensures r[2 * level] == '}' && r[2 * level + 1] == '\n'
  {
    Pad(level) + "}\n"
  }

  /** `parseLine`: the whitespace run that starts the line, and the line with
      whitespace removed at both ends. */
  function ParseLine(line: string): (rec: LineRecord)
    ensures rec.indentLevel <= |line|
    ensures forall k :: 0 <= k < rec.indentLevel ==> IsWs(line[k])
    ensures rec.indentLevel == |line| || !IsWs(line[rec.indentLevel])
    ensures rec.indentLevel + |rec.content| <= |line|
    ensures rec.content == line[rec.indentLevel .. rec.indentLevel + |rec.content|]
    ensures forall k :: rec.indentLevel + |rec.content| <= k < |line| ==> IsWs(line[k])
    ensures rec.content == [] || (!IsWs(rec.content[0]) && !IsWs(rec.content[|rec.content| - 1]))
    ensures rec.content == [] <==> rec.indentLevel == |line|
  {
    LineRecord(LeadingWs(line), Trim(line))
  }

  /** The text of one emitted line. */
  function Text(e: Emitted): string {
    match e
    case Close(level) => CloseBrace(level)
    case BlockOpen(level, name) => Pad(level) + name + " {\n"
    case ListOpen(level, text) => Pad(level) + text + "\n"
    case ListClose(level) => Pad(level) + "]\n"
    case Plain(level, text) => Pad(level) + text + "\n"
  }

  /** The output string: the emitted lines' texts in order. */
  function Render(es: seq<Emitted>): string {
    if es == [] then "" else Render(es[..|es| - 1]) + Text(es[|es| - 1])
  }

  /** The pop loop of the converter: while the stack is not empty and its
      top frame's level is at least `level`, pop that frame and emit its
      closing line. The dedent loop runs it at the line's level; the final
      drain, whose only condition is a non-empty stack, is this loop at
      level 0. */
  function Unwind(st: State, level: nat): (r: State)
    decreases |st.stack|
  {
    if st.stack != [] && level <= st.stack[|st.stack| - 1] then
      var top := st.stack[|st.stack| - 1];
      Unwind(State(st.stack[..|st.stack| - 1], st.emitted + [Close(top)]), level)
    else
      st
  }

  /** Closing lines for popping every frame of `frames`, a top part of a
      stack: one `Close` per frame, the topmost first. */
  function Closes(frames: Stack): (es: seq<Emitted>)
    ensures |es| == |frames|
    ensures forall i :: 0 <= i < |es| ==> es[i] == Close(frames[|frames| - 1 - i])
  {
    if frames == [] then [] else Closes(frames[1..]) + [Close(frames[0])]
  }

  /** One iteration of the `forEach` over the lines: the dedent loop, then
      the line's own text, and a pushed frame for a `:` or `[` line. A lone
      `]` throws unless the dedent loop emptied the stack. `StepSucceeds`
      and `StepFailure` characterise its result. */
  function Step(st: State, line: string): (r: Result<State>)
  {
    var rec := ParseLine(line);
    var level, content := rec.indentLevel, rec.content;
    var u := Unwind(st, level);
    if EndsWith(content, ':') then
      Ok(State(u.stack + [level], u.emitted + [BlockOpen(level, content[..|content| - 1])]))
    else if EndsWith(content, '[') then
      Ok(State(u.stack + [level], u.emitted + [ListOpen(level, content)]))
    else if content == "]" then
      if u.stack != [] then Failure(UndefinedFrameContent)
      else Ok(State(u.stack, u.emitted + [ListClose(level)]))
    else
      Ok(State(u.stack, u.emitted + [Plain(level, content)]))
  }

  /** The state after the given lines, in order, from an empty stack and an
      empty output; a failing line ends the run. */
  function Run(lines: seq<string>): (r: Result<State>)
  {
    if lines == [] then Ok(State([], []))
    else
      match Run(lines[..|lines| - 1])
      case Failure(e) => Failure(e)
      case Ok(st) => Step(st, lines[|lines| - 1])
  }

  /** The lines `convertToGraphql` works on: the input trimmed once, then
      split at every line feed. */
  function InputLines(gqlQuery: string): (lines: seq<string>)
  {
    Split(Trim(gqlQuery), '\n')
  }

  /** Every emitted line of a conversion: the run over the input lines, then
      the drain of the frames still open. */
  function Translate(gqlQuery: string): (r: Result<seq<Emitted>>)
  {
    match Run(InputLines(gqlQuery))
    case Failure(e) => Failure(e)
    case Ok(st) => Ok(Unwind(st, 0).emitted)
  }

  /** `convertToGraphql` as a function of its input. */
  function Convert(gqlQuery: string): (r: Result<string>)
  {
    match Translate(gqlQuery)
    case Failure(e) => Failure(e)
    case Ok(es) => Ok(Render(es))
  }

  /** The callback the `forEach` runs on each line: the dedent loop, then
      the line's own text and, for an opener, a pushed frame. It updates the
      converter's stack and output; `ok` is false when the line throws. */
  method ConvertLine(stack0: Stack, output0: string, line: string, ghost st: State)
    returns (ok: bool, stack: Stack, output: string)
    requires st.stack == stack0 && Render(st.emitted) == output0
    ensures ok <==> Step(st, line).Ok?
    ensures ok ==> Step(st, line).value.stack == stack
    ensures ok ==> Render(Step(st, line).value.emitted) == output
  {
    var rec := ParseLine(line);
    var level, content := rec.indentLevel, rec.content;
    stack, output := Dedent(stack0, output0, level, st);
    ghost var u := Unwind(st, level);

    ghost var e: Emitted;
    if EndsWith(content, ':') {
      e := BlockOpen(level, content[..|content| - 1]);
      output := output + (Pad(level) + content[..|content| - 1] + " {\n");
      stack := stack + [level];
    } else if EndsWith(content, '[') {
      e := ListOpen(level, content);
      output := output + (Pad(level) + content + "\n");
      stack := stack + [level];
    } else if content == "]" {
      // The unwind loop's condition reads the top frame's `content`, which
      // frames do not carry: on a non-empty stack it throws at once.
      if |stack| > 0 {
        return false, stack, output;
      }
      e := ListClose(level);
      output := output + (Pad(level) + "]\n");
      // The pop that follows is guarded by a non-empty stack: it never runs.
    } else {
      e := Plain(level, content);
      output := output + (Pad(level) + content + "\n");
    }
    assert Step(st, line) == Ok(State(stack, u.emitted + [e]));
    RenderSnoc(u.emitted, e);
    ok := true;
  }

  /** The dedent loop: pop every top frame whose level is at least this
      line's, appending its closing line. */
  method Dedent(stack0: Stack, output0: string, level: nat, ghost st: State)
    returns (stack: Stack, output: string)
    requires st.stack == stack0 && Render(st.emitted) == output0
    ensures stack == Unwind(st, level).stack
    ensures output == Render(Unwind(st, level).emitted)
  {
    stack, output := stack0, output0;
    ghost var emitted := st.emitted;
    while |stack| > 0 && level <= stack[|stack| - 1]
      invariant Unwind(State(stack, emitted), level) == Unwind(st, level)
      invariant Render(emitted) == output
    {
      var top := stack[|stack| - 1];
      RenderSnoc(emitted, Close(top));
      stack := stack[..|stack| - 1];
      output := output + CloseBrace(top);
      emitted := emitted + [Close(top)];
    }
  }

  /** `convertToGraphql`: one pass over the lines with a stack of frame
      levels and an output string that only grows. */
  method ConvertToGraphql(gqlQuery: string) returns (r: Result<string>)
    ensures r == Convert(gqlQuery)
  {
    var lines := Split(Trim(gqlQuery), '\n');
    var stack: Stack := [];
    var output := "";
    ghost var st := State([], []);
    for i := 0 to |lines|
      invariant Run(lines[..i]) == Ok(st)
      invariant st.stack == stack && Render(st.emitted) == output
    {
      RunNext(lines, i, st);
      var ok;
      ok, stack, output := ConvertLine(stack, output, lines[i], st);
      if !ok {
        RunFailurePersists(lines, i + 1);
        return Failure(UndefinedFrameContent);
      }
      st := Run(lines[..i + 1]).value;
    }
    RunAll(lines);
    // Close every frame still open, the topmost first.
    output := CloseAll(stack, output, st);
    r := Ok(output);
  }

  /** The loop after the `forEach`: while frames are open, pop the top one
      and append its closing line. */
  method CloseAll(stack0: Stack, output0: string, ghost st: State) returns (output: string)
    requires st.stack == stack0 && Render(st.emitted) == output0
    ensures output == Render(Unwind(st, 0).emitted)
  {
    var stack := stack0;
    output := output0;
    ghost var emitted := st.emitted;
    while |stack| > 0
      invariant Unwind(State(stack, emitted), 0) == Unwind(st, 0)
      invariant Render(emitted) == output
    {
      var top := stack[|stack| - 1];
      RenderSnoc(emitted, Close(top));
      stack := stack[..|stack| - 1];
      output := output + CloseBrace(top);
      emitted := emitted + [Close(top)];
    }
  }

  /** Emitting one more line appends its text to the output. */
  lemma RenderSnoc(es: seq<Emitted>, e: Emitted)
    ensures Render(es + [e]) == Render(es) + Text(e)
  {
    assert (es + [e])[..|es|] == es;
  }

  /** The run over one more line is a step from the run before it. */
  lemma RunNext(lines: seq<string>, i: nat, st: State)
    requires i < |lines| && Run(lines[..i]) == Ok(st)
    ensures Run(lines[..i + 1]) == Step(st, lines[i])
  {
    assert lines[..i + 1][..i] == lines[..i];
  }

  lemma RunAll(lines: seq<string>)
    ensures Run(lines[..|lines|]) == Run(lines)
  {
    assert lines[..|lines|] == lines;
  }

  /** Once a line fails, the whole run fails. */
  lemma {:induction false} RunFailurePersists(lines: seq<string>, k: nat)
    requires k <= |lines|
    requires Run(lines[..k]).Failure?
    ensures Run(lines).Failure?
    decreases |lines| - k
  {
    if k < |lines| {
      assert lines[..k + 1][..k] == lines[..k];
      RunFailurePersists(lines, k + 1);
    } else {
      assert lines[..k] == lines;
    }
  }
}
