/** Concrete conversions worked out on the model: a nested block, a list
    whose frame is closed with a brace before its `]`, and a `]` inside an
    open list, which throws. The first two show that the indentation
    doubles the number of whitespace characters before a line. */
module GqlConverterExamples {
  import opened JsString
  import opened GqlConverter
  import opened GqlConverterProperties

  /** The input lines of a query that neither starts nor ends with
      whitespace are its pieces between line feeds. */
  lemma InputLinesOf(gqlQuery: string, parts: seq<string>)
    requires |parts| >= 1 && Join(parts, '\n') == gqlQuery
    requires forall i :: 0 <= i < |parts| ==> '\n' !in parts[i]
    requires gqlQuery != [] && !IsWs(gqlQuery[0]) && !IsWs(gqlQuery[|gqlQuery| - 1])
    ensures InputLines(gqlQuery) == parts
  {
    TrimUnique(gqlQuery, 0, |gqlQuery|);
    assert gqlQuery[0..|gqlQuery|] == gqlQuery;
    SplitJoin(parts, '\n');
  }

  /** The run over two lines is two steps from the empty state. */
  lemma RunTwo(a: string, b: string)
    ensures Run([a, b])
      == match Step(State([], []), a) case Failure(e) => Failure(e) case Ok(st) => Step(st, b)
  {
    assert [a, b][..1] == [a];
    assert [a][..0] == [];
    assert Run([a]) == Step(State([], []), a);
  }

  /** The run over three lines is three steps from the empty state. */
  lemma RunThree(a: string, b: string, c: string)
    ensures Run([a, b, c])
      == match Run([a, b]) case Failure(e) => Failure(e) case Ok(st) => Step(st, c)
  {
    assert [a, b, c][..2] == [a, b];
  }

  lemma Snocs<T>(a: T, b: T, c: T, d: T)
    ensures [a, b] == [a] + [b] && [a, b, c] == [a, b] + [c]
    ensures [a, b, c, d] == [a, b, c] + [d]
  {
  }

  lemma RenderThree(e0: Emitted, e1: Emitted, e2: Emitted)
    ensures Render([e0, e1, e2]) == Text(e0) + Text(e1) + Text(e2)
  {
    Snocs(e0, e1, e2, e2);
    RenderOne(e0);
    RenderSnoc([e0], e1);
    RenderSnoc([e0, e1], e2);
  }

  lemma RenderFour(e0: Emitted, e1: Emitted, e2: Emitted, e3: Emitted)
    ensures Render([e0, e1, e2, e3]) == Text(e0) + Text(e1) + Text(e2) + Text(e3)
  {
    Snocs(e0, e1, e2, e3);
    RenderThree(e0, e1, e2);
    RenderSnoc([e0, e1, e2], e3);
  }

  // "a:\n b": a block with one field indented by one space.

  lemma ParseBlockHeader()
    ensures ParseLine("a:") == LineRecord(0, "a:")
  {
    TrimUnique("a:", 0, 2);
    assert "a:"[0..2] == "a:";
  }

  lemma ParseField()
    ensures ParseLine(" b") == LineRecord(1, "b")
  {
    TrimUnique(" b", 1, 2);
  }

  lemma ParseListHeader()
    ensures ParseLine("a [") == LineRecord(0, "a [")
  {
    TrimUnique("a [", 0, 3);
    assert "a ["[0..3] == "a [";
  }

  lemma ParseListClose()
    ensures ParseLine("]") == LineRecord(0, "]")
  {
    TrimUnique("]", 0, 1);
    assert "]"[0..1] == "]";
  }

  lemma ParseInnerClose()
    ensures ParseLine(" ]") == LineRecord(1, "]")
  {
    TrimUnique(" ]", 1, 2);
  }

  lemma NestedBlockFirst()
    ensures Step(State([], []), "a:") == Ok(State([0], [BlockOpen(0, "a")]))
  {
    ParseBlockHeader();
    StepSucceeds(State([], []), "a:", LineRecord(0, "a:"));
    assert Unwind(State([], []), 0) == State([], []);
    assert EndsWith("a:", ':') && "a:"[..1] == "a";
    assert LineEvent(LineRecord(0, "a:")) == BlockOpen(0, "a");
    assert [] + [0] == [0] && [] + [BlockOpen(0, "a")] == [BlockOpen(0, "a")];
  }

  lemma NestedBlockSecond()
    ensures Step(State([0], [BlockOpen(0, "a")]), " b")
      == Ok(State([0], [BlockOpen(0, "a"), Plain(1, "b")]))
  {
    var st := State([0], [BlockOpen(0, "a")]);
    ParseField();
    StepSucceeds(st, " b", LineRecord(1, "b"));
    assert Unwind(st, 1) == st;
    assert !EndsWith("b", ':') && !EndsWith("b", '[') && "b" != "]";
    assert LineEvent(LineRecord(1, "b")) == Plain(1, "b");
    assert st.stack + [] == st.stack;
    assert st.emitted + [Plain(1, "b")] == [BlockOpen(0, "a"), Plain(1, "b")];
  }

  lemma NestedBlockTexts()
    ensures Text(BlockOpen(0, "a")) == "a {\n" && Text(Plain(1, "b")) == "  b\n"
    ensures Text(Close(0)) == "}\n"
  {
    assert Pad(0) == "" && Pad(1) == "  ";
  }

  lemma NestedBlockConcat()
    ensures "a {\n" + "  b\n" + "}\n" == "a {\n  b\n}\n"
  {
  }

  lemma NestedBlockRender()
    ensures Render([BlockOpen(0, "a"), Plain(1, "b"), Close(0)]) == "a {\n  b\n}\n"
  {
    RenderThree(BlockOpen(0, "a"), Plain(1, "b"), Close(0));
    NestedBlockTexts();
    NestedBlockConcat();
  }

  lemma NestedBlockLines()
    ensures InputLines("a:\n b") == ["a:", " b"]
  {
    InputLinesOf("a:\n b", ["a:", " b"]);
  }

  lemma NestedBlockDrain()
    ensures Unwind(State([0], [BlockOpen(0, "a"), Plain(1, "b")]), 0)
      == State([], [BlockOpen(0, "a"), Plain(1, "b"), Close(0)])
  {
    var es := [BlockOpen(0, "a"), Plain(1, "b")];
    assert Unwind(State([0], es), 0) == Unwind(State([], es + [Close(0)]), 0);
    assert es + [Close(0)] == [BlockOpen(0, "a"), Plain(1, "b"), Close(0)];
  }

  /** A block with one field indented by one space: the field is written
      two spaces deep and the drain closes the block. */
  lemma ExampleNestedBlock()
    ensures Convert("a:\n b") == Ok("a {\n  b\n}\n")
  {
    NestedBlockLines();
    NestedBlockFirst();
    NestedBlockSecond();
    RunTwo("a:", " b");
    NestedBlockDrain();
    NestedBlockRender();
  }

  // "a [\n b\n]": a list with one item, closed by a `]` at level 0.

  lemma ListFirst()
    ensures Step(State([], []), "a [") == Ok(State([0], [ListOpen(0, "a [")]))
  {
    ParseListHeader();
    StepSucceeds(State([], []), "a [", LineRecord(0, "a ["));
    assert Unwind(State([], []), 0) == State([], []);
    assert !EndsWith("a [", ':') && EndsWith("a [", '[');
    assert LineEvent(LineRecord(0, "a [")) == ListOpen(0, "a [");
    assert [] + [0] == [0] && [] + [ListOpen(0, "a [")] == [ListOpen(0, "a [")];
  }

  lemma ListSecond()
    ensures Step(State([0], [ListOpen(0, "a [")]), " b")
      == Ok(State([0], [ListOpen(0, "a ["), Plain(1, "b")]))
  {
    var st := State([0], [ListOpen(0, "a [")]);
    ParseField();
    StepSucceeds(st, " b", LineRecord(1, "b"));
    assert Unwind(st, 1) == st;
    assert !EndsWith("b", ':') && !EndsWith("b", '[') && "b" != "]";
    assert LineEvent(LineRecord(1, "b")) == Plain(1, "b");
    assert st.stack + [] == st.stack;
    assert st.emitted + [Plain(1, "b")] == [ListOpen(0, "a ["), Plain(1, "b")];
  }

  lemma ListThird()
    ensures Step(State([0], [ListOpen(0, "a ["), Plain(1, "b")]), "]")
      == Ok(State([], [ListOpen(0, "a ["), Plain(1, "b"), Close(0), ListClose(0)]))
  {
    var es := [ListOpen(0, "a ["), Plain(1, "b")];
    ParseListClose();
    assert Unwind(State([0], es), 0) == Unwind(State([], es + [Close(0)]), 0);
    StepSucceeds(State([0], es), "]", LineRecord(0, "]"));
    assert !EndsWith("]", ':') && !EndsWith("]", '[');
    assert LineEvent(LineRecord(0, "]")) == ListClose(0);
    assert es + [Close(0)] + [ListClose(0)]
      == [ListOpen(0, "a ["), Plain(1, "b"), Close(0), ListClose(0)];
  }

  lemma ListLines()
    ensures InputLines("a [\n b\n]") == ["a [", " b", "]"]
  {
    InputLinesOf("a [\n b\n]", ["a [", " b", "]"]);
  }

  lemma ListTexts()
    ensures Text(ListOpen(0, "a [")) == "a [\n" && Text(Plain(1, "b")) == "  b\n"
    ensures Text(Close(0)) == "}\n" && Text(ListClose(0)) == "]\n"
  {
    assert Pad(0) == "" && Pad(1) == "  ";
  }

  lemma ListConcat()
    ensures "a [\n" + "  b\n" + "}\n" + "]\n" == "a [\n  b\n}\n]\n"
  {
  }

  lemma ListRender()
    ensures Render([ListOpen(0, "a ["), Plain(1, "b"), Close(0), ListClose(0)])
      == "a [\n  b\n}\n]\n"
  {
    RenderFour(ListOpen(0, "a ["), Plain(1, "b"), Close(0), ListClose(0));
    ListTexts();
    ListConcat();
  }

  /** A list opened by a line ending in `[` is a frame like a block: the
      `]` at its own level pops it, which writes `}`, and then writes the
      `]` itself. */
  lemma ExampleListClosedWithBrace()
    ensures Convert("a [\n b\n]") == Ok("a [\n  b\n}\n]\n")
  {
    var es := [ListOpen(0, "a ["), Plain(1, "b"), Close(0), ListClose(0)];
    ListLines();
    ListFirst();
    ListSecond();
    RunTwo("a [", " b");
    ListThird();
    RunThree("a [", " b", "]");
    assert Unwind(State([], es), 0) == State([], es);
    ListRender();
  }

  // "a [\n ]": a `]` inside the list it would close.

  lemma InnerCloseSecond()
    ensures Step(State([0], [ListOpen(0, "a [")]), " ]") == Failure(UndefinedFrameContent)
  {
    var st := State([0], [ListOpen(0, "a [")]);
    ParseInnerClose();
    assert Unwind(st, 1) == st;
    assert !EndsWith("]", ':') && !EndsWith("]", '[');
  }

  /** A `]` indented deeper than the list it would close leaves the list's
      frame on the stack, and the converter throws. */
  lemma ExampleInnerCloseThrows()
    ensures Convert("a [\n ]") == Failure(UndefinedFrameContent)
  {
    InputLinesOf("a [\n ]", ["a [", " ]"]);
    ListFirst();
    InnerCloseSecond();
    RunTwo("a [", " ]");
  }
}
