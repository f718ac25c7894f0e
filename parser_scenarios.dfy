/**
 * The five-line file below, as `readlines()` returns it, under both block
 * comment rules:
 *
 *     /* Header */
 *     // Note
 *     "greeting" = "Hello\nWorld";
 *
 *     "farewell" = "Bye";
 */
module ParserScenarios {
  import opened Text
  import opened Escaping
  import opened KeyValuePattern
  import opened StringsParser
  import opened Wrappers

  const HeaderLine := "/* Header */"
  const NoteLine := "// Note"
  const GreetingLine := "\"greeting\" = \"Hello\\nWorld\";"
  const FarewellLine := "\"farewell\" = \"Bye\";"

  const Scenario := [HeaderLine + "\n", NoteLine + "\n", GreetingLine + "\n", "\n", FarewellLine + "\n"]

  lemma StripsTo(line: string)
    requires line != [] && line[0] != '\n' && line[|line| - 1] != '\n'
    requires !IsSpace(line[0]) && !IsSpace(line[|line| - 1])
    ensures StripChar(line + "\n", '\n') == line
    ensures Trim(line) == line
  {
    assert (line + "\n")[..|line|] == line;
  }

  lemma ScenarioLines()
    ensures StripChar(Scenario[0], '\n') == HeaderLine && Trim(HeaderLine) == HeaderLine
    ensures StripChar(Scenario[1], '\n') == NoteLine && Trim(NoteLine) == NoteLine
    ensures StripChar(Scenario[2], '\n') == GreetingLine && Trim(GreetingLine) == GreetingLine
    ensures StripChar(Scenario[3], '\n') == "" && Trim("") == ""
    ensures StripChar(Scenario[4], '\n') == FarewellLine && Trim(FarewellLine) == FarewellLine
  {
    StripsTo(HeaderLine);
    StripsTo(NoteLine);
    StripsTo(GreetingLine);
    StripsTo(FarewellLine);
    assert "\n"[1..] == "";
  }

  /** The tests the parser applies to each trimmed line of the file. */
  lemma LineShapes()
    ensures StartsWith(HeaderLine, "/*") && SelfClosed(HeaderLine)
    ensures !StartsWith(NoteLine, "/*") && !EndsWith(NoteLine, "*/") && StartsWith(NoteLine, "//")
    ensures !StartsWith(GreetingLine, "/*") && !EndsWith(GreetingLine, "*/") && !StartsWith(GreetingLine, "//")
    ensures !StartsWith(FarewellLine, "/*") && !EndsWith(FarewellLine, "*/") && !StartsWith(FarewellLine, "//")
    ensures !StartsWith("", "/*") && !EndsWith("", "*/") && !StartsWith("", "//")
  {
    assert HeaderLine[..2] == "/*";
    assert HeaderLine[|HeaderLine| - 2..] == "*/";
    assert NoteLine[..2] == "//";
    assert NoteLine[|NoteLine| - 2..] != "*/" by { assert NoteLine[|NoteLine| - 1] == 'e'; }
    assert GreetingLine[..2] != "/*" by { assert GreetingLine[0] == '"'; }
    assert GreetingLine[..2] != "//" by { assert GreetingLine[0] == '"'; }
    assert GreetingLine[|GreetingLine| - 2..] != "*/" by { assert GreetingLine[|GreetingLine| - 1] == ';'; }
    assert FarewellLine[..2] != "/*" by { assert FarewellLine[0] == '"'; }
    assert FarewellLine[..2] != "//" by { assert FarewellLine[0] == '"'; }
    assert FarewellLine[|FarewellLine| - 2..] != "*/" by { assert FarewellLine[|FarewellLine| - 1] == ';'; }
  }

  /**
   * As written, the one-line header opens a block comment that never closes,
   * so every later line is absorbed into it and the document comes out empty.
   */
  lemma OneLineHeaderSwallowsFile(decode: string -> string)
    ensures Parse(AsWritten, Scenario, true, decode) == Document("", [], map[])
  {
    ScenarioLines();
    LineShapes();
    var st0 := RunPrefix(AsWritten, Scenario, 0, true, decode);
    OpeningLineRestartsComment(st0, Scenario[0], true, decode);
    var st1 := RunPrefix(AsWritten, Scenario, 1, true, decode);
    assert st1 == Initial.(pending := HeaderLine + "\n");
    PendingCommentAbsorbsLine(AsWritten, st1, Scenario[1], true, decode);
    var st2 := RunPrefix(AsWritten, Scenario, 2, true, decode);
    assert st2 == st1.(pending := st1.pending + NoteLine + "\n");
    PendingCommentAbsorbsLine(AsWritten, st2, Scenario[2], true, decode);
    var st3 := RunPrefix(AsWritten, Scenario, 3, true, decode);
    assert st3 == st2.(pending := st2.pending + GreetingLine + "\n");
    PendingCommentAbsorbsLine(AsWritten, st3, Scenario[3], true, decode);
    var st4 := RunPrefix(AsWritten, Scenario, 4, true, decode);
    assert st4 == st3.(pending := st3.pending + "" + "\n");
    PendingCommentAbsorbsLine(AsWritten, st4, Scenario[4], true, decode);
    var st5 := RunPrefix(AsWritten, Scenario, 5, true, decode);
    assert st5 == st4.(pending := st4.pending + FarewellLine + "\n");
  }

  lemma GreetingMatches()
    ensures MatchKeyValue(GreetingLine) == Some(KeyValue("greeting", "Hello\\nWorld"))
  {
    assert GreetingLine == EntryLine("greeting", "Hello\\nWorld");
    EntryLineMatches("greeting", "Hello\\nWorld");
  }

  lemma FarewellMatches()
    ensures MatchKeyValue(FarewellLine) == Some(KeyValue("farewell", "Bye"))
  {
    assert FarewellLine == EntryLine("farewell", "Bye");
    EntryLineMatches("farewell", "Bye");
  }

  /** The states after each line under the intended rule. */
  function After1(): ParseState { Initial.(header := HeaderLine) }
  function After2(): ParseState { After1().(lines := [Comment(NoteLine)]) }
  function After3(decode: string -> string): ParseState {
    After2().(lines := [Comment(NoteLine), Entry("greeting", decode("Hello\\nWorld"))],
              dict := map["greeting" := decode("Hello\\nWorld")])
  }
  function After4(decode: string -> string): ParseState {
    After3(decode).(lines := After3(decode).lines + [Comment(EmptyLine)])
  }
  function After5(decode: string -> string): ParseState {
    After4(decode).(lines := After4(decode).lines + [Entry("farewell", decode("Bye"))],
                    dict := After4(decode).dict["farewell" := decode("Bye")])
  }

  lemma HeaderStep(decode: string -> string)
    ensures Step(SelfClosing, Initial, Scenario[0], true, decode) == After1()
  {
    ScenarioLines();
    LineShapes();
    SelfClosedLineIsComplete(Initial, Scenario[0], true, decode);
  }

  lemma NoteStep(decode: string -> string)
    ensures Step(SelfClosing, After1(), Scenario[1], true, decode) == After2()
  {
    ScenarioLines();
    LineShapes();
    assert !SelfClosed(NoteLine);
  }

  lemma GreetingStep(decode: string -> string)
    ensures Step(SelfClosing, After2(), Scenario[2], true, decode) == After3(decode)
  {
    GreetingReached();
    GreetingMatches();
    KeyValueLine(SelfClosing, After2(), Scenario[2], true, decode);
    var v := decode("Hello\\nWorld");
    assert After2().lines + [Entry("greeting", v)] == After3(decode).lines;
    assert After2().dict["greeting" := v] == After3(decode).dict;
  }

  lemma GreetingReached()
    ensures StripChar(Scenario[2], '\n') == GreetingLine
    ensures ReachesKeyValue(SelfClosing, After2(), GreetingLine)
  {
    ScenarioLines();
    LineShapes();
    assert !SelfClosed(GreetingLine);
  }

  lemma BlankStep(decode: string -> string)
    ensures Step(SelfClosing, After3(decode), Scenario[3], true, decode) == After4(decode)
  {
    ScenarioLines();
    LineShapes();
    assert !SelfClosed("");
  }

  lemma FarewellStep(decode: string -> string)
    ensures Step(SelfClosing, After4(decode), Scenario[4], true, decode) == After5(decode)
  {
    FarewellReached(decode);
    FarewellMatches();
    KeyValueLine(SelfClosing, After4(decode), Scenario[4], true, decode);
  }

  lemma FarewellReached(decode: string -> string)
    ensures StripChar(Scenario[4], '\n') == FarewellLine
    ensures ReachesKeyValue(SelfClosing, After4(decode), FarewellLine)
  {
    ScenarioLines();
    LineShapes();
    assert !SelfClosed(FarewellLine);
  }

  /**
   * Under the intended rule the same file gives the header, the note, the
   * first entry, the blank-line marker and the second entry, with both
   * values passed through the decoder.
   */
  lemma SelfClosingHeaderScenario(decode: string -> string)
    ensures Parse(SelfClosing, Scenario, true, decode)
         == Document(HeaderLine,
                     [Comment(NoteLine), Entry("greeting", decode("Hello\\nWorld")), Comment(EmptyLine), Entry("farewell", decode("Bye"))],
                     map["greeting" := decode("Hello\\nWorld"), "farewell" := decode("Bye")])
  {
    assert RunPrefix(SelfClosing, Scenario, 0, true, decode) == Initial;
    HeaderStep(decode);
    RunReaches(SelfClosing, Scenario, 0, true, decode, Initial, After1());
    NoteStep(decode);
    RunReaches(SelfClosing, Scenario, 1, true, decode, After1(), After2());
    GreetingStep(decode);
    RunReaches(SelfClosing, Scenario, 2, true, decode, After2(), After3(decode));
    BlankStep(decode);
    RunReaches(SelfClosing, Scenario, 3, true, decode, After3(decode), After4(decode));
    FarewellStep(decode);
    RunReaches(SelfClosing, Scenario, 4, true, decode, After4(decode), After5(decode));
    FinalDocument(decode);
  }

  lemma FinalDocument(decode: string -> string)
    ensures Document(After5(decode).header, After5(decode).lines, After5(decode).dict)
         == Document(HeaderLine,
                     [Comment(NoteLine), Entry("greeting", decode("Hello\\nWorld")), Comment(EmptyLine), Entry("farewell", decode("Bye"))],
                     map["greeting" := decode("Hello\\nWorld"), "farewell" := decode("Bye")])
  {
  }

  /** One more line read from a known state gives the state its step leads to. */
  lemma RunReaches(rule: BlockRule, fileLines: seq<string>, n: nat, combine: bool, decode: string -> string,
                   before: ParseState, after: ParseState)
    requires n < |fileLines|
    requires RunPrefix(rule, fileLines, n, combine, decode) == before
    requires Step(rule, before, fileLines[n], combine, decode) == after
    ensures RunPrefix(rule, fileLines, n + 1, combine, decode) == after
  {
  }

  /** The decoder turns the escaped line break of the first value back into one. */
  lemma DecodeGreeting(v: string)
    requires v == "Hello\\nWorld"
    ensures DecodeNewlines(v) == "Hello\nWorld"
  {
    assert '\\' !in "Hello" && '\\' !in "World";
    DecodeEscapedBreak("Hello", "World");
    assert "Hello" + "\\n" + "World" == v;
    assert "Hello" + "\n" + "World" == "Hello\nWorld";
  }
}
