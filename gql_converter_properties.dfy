/** What the converter of GQLConverter.js guarantees, proved about the model
    in the GqlConverter module: how the pop loop shapes the stack and the
    output, that the frames on the stack are ordered by level, what one line
    appends to the output, when a lone `]` throws, that every opened block
    is closed exactly once, and what trimming the input once implies. */
module GqlConverterProperties {
  import opened JsString
  import opened GqlConverter

  // ---------------------------------------------------------------------
  // The pop loop
  // ---------------------------------------------------------------------

  /** Closing one more frame below a top part of a stack puts its closing
      line last. */
  lemma ClosesSnoc(frames: Stack, x: nat)
    ensures Closes(frames + [x]) == [Close(x)] + Closes(frames)
  {
    var a, b := Closes(frames + [x]), [Close(x)] + Closes(frames);
    assert |a| == |b|;
    forall i | 0 <= i < |a| ensures a[i] == b[i] {
      if i > 0 {
        assert (frames + [x])[|frames| - i] == frames[|frames| - 1 - (i - 1)];
      }
    }
  }

  /** Dropping the top of a stack, then taking a bottom part of it, is
      taking that bottom part; the top part above `k` is the top part of
      the shorter stack with the dropped frame on it. */
  lemma DropTop<T>(s: seq<T>, k: nat)
    requires k < |s|
    ensures s[..|s| - 1][..k] == s[..k]
    ensures s[k..] == s[..|s| - 1][k..] + [s[|s| - 1]]
  {
  }

  lemma Assoc<T>(x: seq<T>, y: seq<T>, z: seq<T>)
    ensures (x + y) + z == x + (y + z)
  {
  }

  /** The pop loop removes a top part of the stack and nothing else,
      removes only frames at or above `level`, and stops at an empty stack
      or at a top frame below `level`. */
  lemma {:induction false} UnwindKeepsBottom(st: State, level: nat)
    ensures |Unwind(st, level).stack| <= |st.stack|
    ensures Unwind(st, level).stack == st.stack[..|Unwind(st, level).stack|]
    ensures forall i :: |Unwind(st, level).stack| <= i < |st.stack| ==> level <= st.stack[i]
    ensures var kept := Unwind(st, level).stack; kept == [] || kept[|kept| - 1] < level
    decreases |st.stack|
  {
    var n := |st.stack|;
    if st.stack != [] && level <= st.stack[n - 1] {
      var next := State(st.stack[..n - 1], st.emitted + [Close(st.stack[n - 1])]);
      assert Unwind(st, level) == Unwind(next, level);
      UnwindKeepsBottom(next, level);
      DropTop(st.stack, |Unwind(next, level).stack|);
    } else {
      assert st.stack[..n] == st.stack;
    }
  }

  /** The pop loop emits one closing line per removed frame, the topmost
      first, and nothing else. */
  lemma {:induction false} UnwindEmitsCloses(st: State, level: nat)
    ensures |Unwind(st, level).stack| <= |st.stack|
    ensures Unwind(st, level).emitted == st.emitted + Closes(st.stack[|Unwind(st, level).stack|..])
    decreases |st.stack|
  {
    var n := |st.stack|;
    if st.stack != [] && level <= st.stack[n - 1] {
      var top := st.stack[n - 1];
      var next := State(st.stack[..n - 1], st.emitted + [Close(top)]);
      var r := Unwind(next, level);
      assert Unwind(st, level) == r;
      UnwindEmitsCloses(next, level);
      var k := |r.stack|;
      DropTop(st.stack, k);
      ClosesSnoc(next.stack[k..], top);
      Assoc(st.emitted, [Close(top)], Closes(next.stack[k..]));
    } else {
      assert Closes(st.stack[n..]) == [];
      AppendEmpty(st.emitted);
    }
  }

  /** Both halves of what the pop loop does. */
  lemma UnwindShape(st: State, level: nat)
    ensures |Unwind(st, level).stack| <= |st.stack|
    ensures Unwind(st, level).stack == st.stack[..|Unwind(st, level).stack|]
    ensures Unwind(st, level).emitted == st.emitted + Closes(st.stack[|Unwind(st, level).stack|..])
    ensures forall i :: |Unwind(st, level).stack| <= i < |st.stack| ==> level <= st.stack[i]
    ensures var kept := Unwind(st, level).stack; kept == [] || kept[|kept| - 1] < level
  {
    UnwindKeepsBottom(st, level);
    UnwindEmitsCloses(st, level);
  }

  /** The final drain leaves no frame open and emits a closing line for
      every frame, the topmost first. */
  lemma DrainClosesAll(st: State)
    ensures Unwind(st, 0).stack == []
    ensures Unwind(st, 0).emitted == st.emitted + Closes(st.stack)
  {
    UnwindShape(st, 0);
    assert st.stack[0..] == st.stack;
  }

  // ---------------------------------------------------------------------
  // Order of the frames
  // ---------------------------------------------------------------------

  /** Frame levels increase strictly from the bottom of the stack up. */
  ghost predicate StrictlyIncreasing(s: Stack) {
    forall i, j :: 0 <= i < j < |s| ==> s[i] < s[j]
  }

  /** On a stack whose levels increase, the dedent loop of a line at
      `level` removes exactly the frames opened at `level` or deeper: a
      frame stays if and only if its level is below the line's. */
  lemma DedentPopsExactlyDeeper(st: State, level: nat)
    requires StrictlyIncreasing(st.stack)
    ensures forall i :: 0 <= i < |st.stack| ==>
      (i < |Unwind(st, level).stack| <==> st.stack[i] < level)
  {
    UnwindShape(st, level);
  }

  lemma IncreasingPrefix(s: Stack, k: nat)
    requires StrictlyIncreasing(s) && k <= |s|
    ensures StrictlyIncreasing(s[..k])
  {
  }

  lemma IncreasingPush(s: Stack, x: nat)
    requires StrictlyIncreasing(s) && (s == [] || s[|s| - 1] < x)
    ensures StrictlyIncreasing(s + [x])
  {
    var t := s + [x];
    forall i, j | 0 <= i < j < |t| ensures t[i] < t[j] {
      if j == |s| && i < |s| - 1 {
        assert s[i] < s[|s| - 1];
      }
    }
  }

  /** A line keeps the frame levels strictly increasing: it pushes its own
      level only after popping every frame at that level or deeper. */
  lemma StepKeepsIncreasing(st: State, line: string)
    requires StrictlyIncreasing(st.stack) && Step(st, line).Ok?
    ensures StrictlyIncreasing(Step(st, line).value.stack)
  {
    var rec := ParseLine(line);
    var kept := Unwind(st, rec.indentLevel).stack;
    UnwindKeepsBottom(st, rec.indentLevel);
    IncreasingPrefix(st.stack, |kept|);
    StepShape(st, line);
    if IsOpener(rec.content) {
      IncreasingPush(kept, rec.indentLevel);
    } else {
      AppendEmpty(kept);
    }
  }

  /** After any prefix of the lines, the open frames are ordered by level. */
  lemma {:induction false} RunKeepsIncreasing(lines: seq<string>)
    requires Run(lines).Ok?
    ensures StrictlyIncreasing(Run(lines).value.stack)
  {
    if lines != [] {
      var init := lines[..|lines| - 1];
      RunKeepsIncreasing(init);
      StepKeepsIncreasing(Run(init).value, lines[|lines| - 1]);
    }
  }

  // ---------------------------------------------------------------------
  // What one line appends
  // ---------------------------------------------------------------------

  /** `n` spaces. */
  function Spaces(n: nat): string {
    seq(n, _ => ' ')
  }

  /** The text a line appends after the closing lines of its dedent loop,
      read off the three emit statements of the converter: a block header
      loses its `:` and gains ` {`, every other line is kept as trimmed;
      either way indented by two spaces per whitespace character. */
  function OwnText(rec: LineRecord): string {
    if EndsWith(rec.content, ':') then
      Spaces(2 * rec.indentLevel) + rec.content[..|rec.content| - 1] + " {\n"
    else
      Spaces(2 * rec.indentLevel) + rec.content + "\n"
  }

  lemma PadIsSpaces(n: nat)
    ensures Pad(n) == Spaces(2 * n)
  {
  }

  /** A non-empty sequence is its last element appended to the rest. */
  lemma SnocSplit<T>(a: seq<T>, b: seq<T>)
    requires b != []
    ensures b == b[..|b| - 1] + [b[|b| - 1]]
    ensures a + b == (a + b[..|b| - 1]) + [b[|b| - 1]]
  {
  }

  /** Rendering is a homomorphism from emitted lines to text. */
  lemma {:induction false} RenderAppend(a: seq<Emitted>, b: seq<Emitted>)
    ensures Render(a + b) == Render(a) + Render(b)
    decreases |b|
  {
    if b == [] {
      assert a + b == a;
    } else {
      var init, last := b[..|b| - 1], b[|b| - 1];
      SnocSplit(a, b);
      RenderAppend(a, init);
      RenderSnoc(a + init, last);
      RenderSnoc(init, last);
      Assoc(Render(a), Render(init), Text(last));
    }
  }

  /** The closing lines of popped frames: the topmost frame's brace first,
      each indented by two spaces per unit of the frame's level. */
  lemma RenderClosesTopFirst(frames: Stack, x: nat)
    ensures Render(Closes(frames + [x])) == Spaces(2 * x) + "}\n" + Render(Closes(frames))
  {
    ClosesSnoc(frames, x);
    RenderAppend([Close(x)], Closes(frames));
    RenderOne(Close(x));
    CloseText(x);
  }

  lemma CloseText(x: nat)
    ensures Text(Close(x)) == Spaces(2 * x) + "}\n"
  {
    PadIsSpaces(x);
  }

  /** Whether a line's content opens a frame. */
  predicate IsOpener(content: string) {
    EndsWith(content, ':') || EndsWith(content, '[')
  }

  /** The line's own output line, classified as the converter does: a
      trailing `:` first, then a trailing `[`, then a lone `]`. This is the
      classification of `Step`, restated on a parsed line; `StepSucceeds`
      and `StepFailure` tie the two together, so it must stay in step with
      `Step`. */
  function LineEvent(rec: LineRecord): Emitted {
    var level, content := rec.indentLevel, rec.content;
    if EndsWith(content, ':') then BlockOpen(level, content[..|content| - 1])
    else if EndsWith(content, '[') then ListOpen(level, content)
    else if content == "]" then ListClose(level)
    else Plain(level, content)
  }

  /** Every successful line is its dedent loop, then one output line of its
      own, then a push of its level when it opens a frame. */
  lemma StepShape(st: State, line: string)
    requires Step(st, line).Ok?
    ensures var rec := ParseLine(line);
      var u := Unwind(st, rec.indentLevel);
      Step(st, line).value
        == State(u.stack + (if IsOpener(rec.content) then [rec.indentLevel] else []),
                 u.emitted + [LineEvent(rec)])
  {
  }

  /** Every line but a lone `]` that its dedent loop leaves on a non-empty
      stack succeeds, as its dedent loop, its own output line, and a push of
      its level when it opens a frame. */
  lemma StepSucceeds(st: State, line: string, rec: LineRecord)
    requires ParseLine(line) == rec
    requires rec.content != "]" || Unwind(st, rec.indentLevel).stack == []
    ensures var u := Unwind(st, rec.indentLevel);
      Step(st, line)
        == Ok(State(u.stack + (if IsOpener(rec.content) then [rec.indentLevel] else []),
                    u.emitted + [LineEvent(rec)]))
  {
    AppendEmpty(Unwind(st, rec.indentLevel).stack);
  }

  /** A line's own output line is the text the converter writes for it. */
  lemma LineEventText(rec: LineRecord)
    ensures Text(LineEvent(rec)) == OwnText(rec)
  {
    PadIsSpaces(rec.indentLevel);
  }

  /** Reading the indentation back: a line's own output line starts with
      exactly two whitespace characters per unit of its level, the level a
      `:` or `[` line pushes. A lone `:` and a blank line are the
      exceptions: their padding is followed by ` {` or by the line feed,
      which adds one whitespace character. */
  lemma OwnLineIndentation(line: string)
    ensures var rec := ParseLine(line);
      rec.content != "" && rec.content != ":" ==>
        LeadingWs(Text(LineEvent(rec))) == 2 * rec.indentLevel
    ensures var rec := ParseLine(line);
      rec.content == "" || rec.content == ":" ==>
        LeadingWs(Text(LineEvent(rec))) == 2 * rec.indentLevel + 1
  {
    var rec := ParseLine(line);
    var n, t := 2 * rec.indentLevel, OwnText(rec);
    LineEventText(rec);
    if rec.content == "" {
      assert t == Spaces(n) + "\n";
      LeadingWsUnique(t, n + 1);
    } else if rec.content == ":" {
      assert t == Spaces(n) + " {\n";
      LeadingWsUnique(t, n + 1);
    } else {
      assert t[n] == rec.content[0];
      LeadingWsUnique(t, n);
    }
  }

  /** A closing line is indented by two spaces per unit of its frame's
      level, the same as the line that opened the frame. */
  lemma CloseIndentation(level: nat)
    ensures LeadingWs(Text(Close(level))) == 2 * level
  {
    LeadingWsUnique(CloseBrace(level), 2 * level);
  }

  /** What one successful line does to the output and the stack: the
      closing lines of the frames its dedent loop pops, then its own text;
      the stack keeps the frames below the line's level and gains the
      line's level exactly when the line opens a block or a list. */
  lemma StepOutput(st: State, line: string)
    requires Step(st, line).Ok?
    ensures |Unwind(st, ParseLine(line).indentLevel).stack| <= |st.stack|
    ensures Render(Step(st, line).value.emitted)
      == Render(st.emitted)
         + Render(Closes(st.stack[|Unwind(st, ParseLine(line).indentLevel).stack|..]))
         + OwnText(ParseLine(line))
    ensures Step(st, line).value.stack
      == Unwind(st, ParseLine(line).indentLevel).stack
         + (if IsOpener(ParseLine(line).content) then [ParseLine(line).indentLevel] else [])
  {
    var rec := ParseLine(line);
    var u := Unwind(st, rec.indentLevel);
    UnwindShape(st, rec.indentLevel);
    StepShape(st, line);
    RenderAppend(st.emitted, Closes(st.stack[|u.stack|..]));
    RenderSnoc(u.emitted, LineEvent(rec));
    LineEventText(rec);
  }

  // ---------------------------------------------------------------------
  // A lone `]`
  // ---------------------------------------------------------------------

  /** A lone `]` succeeds exactly when its dedent loop empties the stack,
      and then it emits the closing lines of every open frame followed by
      its own `]` line, leaving the stack empty. */
  lemma ListCloseLine(st: State, line: string)
    requires ParseLine(line).content == "]"
    ensures Step(st, line).Ok? <==> Unwind(st, ParseLine(line).indentLevel).stack == []
    ensures Step(st, line).Ok? ==>
      Step(st, line).value
        == State([], st.emitted + Closes(st.stack) + [ListClose(ParseLine(line).indentLevel)])
  {
    UnwindShape(st, ParseLine(line).indentLevel);
    assert st.stack[0..] == st.stack;
  }

  /** On ordered frames, a lone `]` succeeds exactly when no frame is open
      or it is indented no deeper than the bottom frame: a `]` inside any
      open block or list throws. */
  lemma ListCloseNeedsOutdent(st: State, line: string)
    requires StrictlyIncreasing(st.stack) && ParseLine(line).content == "]"
    ensures Step(st, line).Ok? <==>
      (st.stack == [] || ParseLine(line).indentLevel <= st.stack[0])
  {
    ListCloseLine(st, line);
    DedentPopsExactlyDeeper(st, ParseLine(line).indentLevel);
  }

  // ---------------------------------------------------------------------
  // Balance of opened and closed frames
  // ---------------------------------------------------------------------

  /** Number of lines that open a frame (block headers and list openers). */
  function Openers(es: seq<Emitted>): nat {
    if es == [] then 0
    else Openers(es[..|es| - 1]) + (if es[|es| - 1].BlockOpen? || es[|es| - 1].ListOpen? then 1 else 0)
  }

  /** Number of closing braces emitted for popped frames. */
  function Closers(es: seq<Emitted>): nat {
    if es == [] then 0
    else Closers(es[..|es| - 1]) + (if es[|es| - 1].Close? then 1 else 0)
  }

  lemma {:induction false} CountsAppend(a: seq<Emitted>, b: seq<Emitted>)
    ensures Openers(a + b) == Openers(a) + Openers(b)
    ensures Closers(a + b) == Closers(a) + Closers(b)
    decreases |b|
  {
    if b == [] {
      assert a + b == a;
    } else {
      var init := b[..|b| - 1];
      assert (a + b)[..|a + b| - 1] == a + init;
      CountsAppend(a, init);
    }
  }

  lemma {:induction false} CountsOfCloses(frames: Stack)
    ensures Openers(Closes(frames)) == 0
    ensures Closers(Closes(frames)) == |frames|
  {
    if frames != [] {
      var es := Closes(frames);
      assert es[..|es| - 1] == Closes(frames[1..]);
      CountsOfCloses(frames[1..]);
    }
  }

  /** One line keeps "openers = closers + open frames": every pop emits a
      closer, and a push comes with an opener. */
  lemma StepBalance(st: State, line: string)
    requires Step(st, line).Ok?
    ensures var nx := Step(st, line).value;
      Openers(nx.emitted) - Closers(nx.emitted) - |nx.stack|
        == Openers(st.emitted) - Closers(st.emitted) - |st.stack|
  {
    var rec := ParseLine(line);
    var u := Unwind(st, rec.indentLevel);
    UnwindShape(st, rec.indentLevel);
    StepShape(st, line);
    var e := LineEvent(rec);
    var popped := st.stack[|u.stack|..];
    CountsAppend(st.emitted, Closes(popped));
    CountsOfCloses(popped);
    CountsAppend(u.emitted, [e]);
    assert [e][..0] == [];
  }

  /** After any prefix of the lines, the frames still open are exactly the
      opened blocks and lists that have not been closed. */
  lemma {:induction false} RunBalance(lines: seq<string>)
    requires Run(lines).Ok?
    ensures Openers(Run(lines).value.emitted)
      == Closers(Run(lines).value.emitted) + |Run(lines).value.stack|
  {
    if lines != [] {
      var init := lines[..|lines| - 1];
      RunBalance(init);
      StepBalance(Run(init).value, lines[|lines| - 1]);
    }
  }

  /** A successful conversion closes every block and list it opens: as many
      closing braces as `{` and `[` lines. */
  lemma TranslateBalanced(gqlQuery: string)
    requires Translate(gqlQuery).Ok?
    ensures Openers(Translate(gqlQuery).value) == Closers(Translate(gqlQuery).value)
  {
    var st := Run(InputLines(gqlQuery)).value;
    RunBalance(InputLines(gqlQuery));
    DrainClosesAll(st);
    CountsAppend(st.emitted, Closes(st.stack));
    CountsOfCloses(st.stack);
  }

  // ---------------------------------------------------------------------
  // Order and failure of a run
  // ---------------------------------------------------------------------

  /** The output lines other than closing braces. */
  function OwnLines(es: seq<Emitted>): seq<Emitted> {
    if es == [] then []
    else OwnLines(es[..|es| - 1]) + (if es[|es| - 1].Close? then [] else [es[|es| - 1]])
  }

  /** One output line per input line, in input order. */
  function LineEvents(lines: seq<string>): seq<Emitted> {
    if lines == [] then []
    else LineEvents(lines[..|lines| - 1]) + [LineEvent(ParseLine(lines[|lines| - 1]))]
  }

  lemma {:induction false} OwnLinesAppend(a: seq<Emitted>, b: seq<Emitted>)
    ensures OwnLines(a + b) == OwnLines(a) + OwnLines(b)
    decreases |b|
  {
    if b == [] {
      assert a + b == a;
    } else {
      var init := b[..|b| - 1];
      assert (a + b)[..|a + b| - 1] == a + init;
      OwnLinesAppend(a, init);
    }
  }

  lemma {:induction false} OwnLinesOfCloses(frames: Stack)
    ensures OwnLines(Closes(frames)) == []
  {
    if frames != [] {
      var es := Closes(frames);
      assert es[..|es| - 1] == Closes(frames[1..]);
      OwnLinesOfCloses(frames[1..]);
    }
  }

  lemma OwnLinesOne(e: Emitted)
    requires !e.Close?
    ensures OwnLines([e]) == [e]
  {
    assert [e][..0] == [];
  }

  /** Apart from the closing lines of its dedent loop, a line writes its
      own output line and nothing else. */
  lemma StepOwnLines(st: State, line: string)
    requires Step(st, line).Ok?
    ensures OwnLines(Step(st, line).value.emitted)
      == OwnLines(st.emitted) + [LineEvent(ParseLine(line))]
  {
    var rec := ParseLine(line);
    var u := Unwind(st, rec.indentLevel);
    UnwindEmitsCloses(st, rec.indentLevel);
    var popped := st.stack[|u.stack|..];
    StepShape(st, line);
    OwnLinesAppend(st.emitted, Closes(popped));
    OwnLinesOfCloses(popped);
    AppendEmpty(OwnLines(st.emitted));
    OwnLinesAppend(u.emitted, [LineEvent(rec)]);
    OwnLinesOne(LineEvent(rec));
  }

  lemma AppendEmpty<T>(x: seq<T>)
    ensures x + [] == x
  {
  }

  /** Apart from closing braces, a run writes exactly one line per input
      line, in input order: no line is dropped, repeated or reordered. */
  lemma {:induction false} RunWritesEveryLineInOrder(lines: seq<string>)
    requires Run(lines).Ok?
    ensures OwnLines(Run(lines).value.emitted) == LineEvents(lines)
  {
    if lines != [] {
      var init, line := lines[..|lines| - 1], lines[|lines| - 1];
      RunWritesEveryLineInOrder(init);
      StepOwnLines(Run(init).value, line);
    }
  }

  /** The whole conversion, drain included, writes every input line once
      and in order between its closing braces. */
  lemma TranslateWritesEveryLineInOrder(gqlQuery: string)
    requires Translate(gqlQuery).Ok?
    ensures OwnLines(Translate(gqlQuery).value) == LineEvents(InputLines(gqlQuery))
  {
    var st := Run(InputLines(gqlQuery)).value;
    RunWritesEveryLineInOrder(InputLines(gqlQuery));
    DrainClosesAll(st);
    OwnLinesAppend(st.emitted, Closes(st.stack));
    OwnLinesOfCloses(st.stack);
  }

  /** The output only grows: what a run over the first `k` lines emitted
      is a prefix of what the run over all lines emits. */
  lemma {:induction false} RunExtends(lines: seq<string>, k: nat)
    requires k <= |lines| && Run(lines).Ok?
    ensures Run(lines[..k]).Ok?
    ensures Run(lines[..k]).value.emitted <= Run(lines).value.emitted
    decreases |lines|
  {
    if k == |lines| {
      assert lines[..k] == lines;
    } else {
      var init := lines[..|lines| - 1];
      RunExtends(init, k);
      assert init[..k] == lines[..k];
      var st := Run(init).value;
      var line := lines[|lines| - 1];
      UnwindShape(st, ParseLine(line).indentLevel);
      StepShape(st, line);
    }
  }

  /** Line `i` is where a run throws: the lines before it succeed, it is a
      lone `]`, and its dedent loop leaves a frame open. */
  ghost predicate ThrowsAt(lines: seq<string>, i: int) {
    && 0 <= i < |lines|
    && Run(lines[..i]).Ok?
    && ParseLine(lines[i]).content == "]"
    && Unwind(Run(lines[..i]).value, ParseLine(lines[i]).indentLevel).stack != []
  }

  lemma PrefixOfPrefix<T>(s: seq<T>, i: nat, j: nat)
    requires i <= j <= |s|
    ensures s[..j][..i] == s[..i]
  {
  }

  /** The only line that fails is a lone `]` whose dedent loop leaves a
      frame open. */
  lemma StepFailure(st: State, line: string)
    requires Step(st, line).Failure?
    ensures ParseLine(line).content == "]"
    ensures Unwind(st, ParseLine(line).indentLevel).stack != []
  {
  }

  /** A run whose last line fails throws at that line. */
  lemma LastLineThrows(lines: seq<string>)
    requires lines != [] && Run(lines[..|lines| - 1]).Ok? && Run(lines).Failure?
    ensures ThrowsAt(lines, |lines| - 1)
  {
    StepFailure(Run(lines[..|lines| - 1]).value, lines[|lines| - 1]);
  }

  /** A line where a prefix of the lines throws is one where all of them
      throw. */
  lemma ThrowsAtPrefix(lines: seq<string>, k: nat, i: int)
    requires k <= |lines| && ThrowsAt(lines[..k], i)
    ensures ThrowsAt(lines, i)
  {
    PrefixOfPrefix(lines, i, k);
  }

  /** The line where a failed run throws. */
  lemma {:induction false} ThrowIndex(lines: seq<string>) returns (i: int)
    requires Run(lines).Failure?
    ensures ThrowsAt(lines, i)
  {
    var n := |lines|;
    if Run(lines[..n - 1]).Failure? {
      i := ThrowIndex(lines[..n - 1]);
      ThrowsAtPrefix(lines, n - 1, i);
    } else {
      LastLineThrows(lines);
      i := n - 1;
    }
  }

  /** A failed run has a line where it throws. */
  lemma FailureHasThrow(lines: seq<string>)
    requires Run(lines).Failure?
    ensures exists i :: ThrowsAt(lines, i)
  {
    var i := ThrowIndex(lines);
  }

  /** A line where the run throws makes the whole run fail. */
  lemma ThrowFails(lines: seq<string>, i: int)
    requires ThrowsAt(lines, i)
    ensures Run(lines).Failure?
  {
    RunNext(lines, i, Run(lines[..i]).value);
    RunFailurePersists(lines, i + 1);
  }

  /** A run fails exactly when some line is a lone `]` that its dedent loop
      does not leave on an empty stack. */
  lemma RunFailsIff(lines: seq<string>)
    ensures Run(lines).Failure? <==> exists i :: ThrowsAt(lines, i)
  {
    if Run(lines).Failure? {
      FailureHasThrow(lines);
    }
    if i :| ThrowsAt(lines, i) {
      ThrowFails(lines, i);
    }
  }

  // ---------------------------------------------------------------------
  // Trimmed input and blank lines
  // ---------------------------------------------------------------------

  /** The input is trimmed before it is split, so the first line does not
      start with whitespace: it is at level 0. */
  lemma FirstLineAtLevelZero(gqlQuery: string)
    ensures ParseLine(InputLines(gqlQuery)[0]).indentLevel == 0
  {
    var t := Trim(gqlQuery);
    var first := InputLines(gqlQuery)[0];
    if first != [] {
      assert first[0] == t[0];
    }
  }

  /** A prefix of the emitted lines renders to a prefix of the output. */
  lemma RenderPrefix(a: seq<Emitted>, b: seq<Emitted>)
    requires a <= b
    ensures Render(a) <= Render(b)
  {
    assert b == a + b[|a|..];
    RenderAppend(a, b[|a|..]);
  }

  lemma RenderOne(e: Emitted)
    ensures Render([e]) == Text(e)
  {
    RenderSnoc([], e);
  }

  /** The first line's own output line is the first thing a run emits. */
  lemma RunStartsWithFirstLine(lines: seq<string>)
    requires |lines| >= 1 && Run(lines).Ok?
    ensures [LineEvent(ParseLine(lines[0]))] <= Run(lines).value.emitted
  {
    RunExtends(lines, 1);
    var first := lines[..1];
    assert first[..0] == [] && first[0] == lines[0];
    assert Run(first) == Step(State([], []), lines[0]);
    StepShape(State([], []), lines[0]);
    assert Unwind(State([], []), ParseLine(lines[0]).indentLevel) == State([], []);
  }

  /** The first line is written first: nothing is open before it, so the
      output of a successful conversion starts with its text. */
  lemma ConvertStartsWithFirstLine(gqlQuery: string)
    requires Convert(gqlQuery).Ok?
    ensures OwnText(ParseLine(InputLines(gqlQuery)[0])) <= Convert(gqlQuery).value
  {
    var lines := InputLines(gqlQuery);
    var rec := ParseLine(lines[0]);
    var st := Run(lines).value;
    RunStartsWithFirstLine(lines);
    DrainClosesAll(st);
    var es := Translate(gqlQuery).value;
    assert st.emitted <= es;
    RenderPrefix([LineEvent(rec)], es);
    RenderOne(LineEvent(rec));
    LineEventText(rec);
  }

  /** An input made of whitespace only, the empty input included, converts
      to a single line feed: one empty line at level 0. */
  lemma BlankConvertsToNewline(gqlQuery: string)
    requires forall k :: 0 <= k < |gqlQuery| ==> IsWs(gqlQuery[k])
    ensures Convert(gqlQuery) == Ok("\n")
  {
    var lines := InputLines(gqlQuery);
    assert Trim(gqlQuery) == [];
    SplitOfSeparatorFree([], '\n');
    assert lines == [""];
    EmptyLineClosesAll(State([], []));
    assert [] + Closes([]) + [Plain(0, "")] == [Plain(0, "")];
    assert lines[..0] == [];
    assert Run(lines) == Ok(State([], [Plain(0, "")]));
    assert Translate(gqlQuery) == Ok([Plain(0, "")]);
    RenderSnoc([], Plain(0, ""));
    assert Text(Plain(0, "")) == "\n";
  }

  /** Any input with a non-whitespace character has a first line with
      content, so its output is longer than one line feed. */
  lemma NonBlankFirstLineHasContent(gqlQuery: string)
    requires exists k :: 0 <= k < |gqlQuery| && !IsWs(gqlQuery[k])
    ensures ParseLine(InputLines(gqlQuery)[0]).content != []
    ensures Convert(gqlQuery).Ok? ==> |Convert(gqlQuery).value| >= 2
  {
    var t := Trim(gqlQuery);
    var lines := InputLines(gqlQuery);
    assert t != [];
    assert lines[0][0] == t[0];
    var rec := ParseLine(lines[0]);
    FirstLineAtLevelZero(gqlQuery);
    if Convert(gqlQuery).Ok? {
      ConvertStartsWithFirstLine(gqlQuery);
      assert |OwnText(rec)| >= 2;
    }
  }

  /** Converting gives a single line feed exactly when the input is made of
      whitespace only. */
  lemma ConvertIsNewlineIffBlank(gqlQuery: string)
    ensures Convert(gqlQuery) == Ok("\n")
      <==> forall k :: 0 <= k < |gqlQuery| ==> IsWs(gqlQuery[k])
  {
    if forall k :: 0 <= k < |gqlQuery| ==> IsWs(gqlQuery[k]) {
      BlankConvertsToNewline(gqlQuery);
    } else {
      NonBlankFirstLineHasContent(gqlQuery);
    }
  }

  /** An empty line in the middle of the input (trimming only removes the
      blank lines at its ends) is at level 0: it closes every open frame
      and writes an empty line. */
  lemma EmptyLineClosesAll(st: State)
    ensures Step(st, "") == Ok(State([], st.emitted + Closes(st.stack) + [Plain(0, "")]))
  {
    assert ParseLine("") == LineRecord(0, "");
    DrainClosesAll(st);
  }
}
