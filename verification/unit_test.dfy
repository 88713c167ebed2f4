/**
  The unit test of `src/lib.rs` replayed on the model: a three-line
  program is read command by command through a `Parser`, and every answer
  the test asserts is a postcondition here.
*/
module ParserTest {
  import opened Wrappers
  import opened Text
  import opened VmParser

  /** The program text of the test, ended by a line break. */
  const Program: string := "push constant 7\npush constant 8\nadd\n"

  /** What one line reports: its command type, `arg1` and `arg2`. */
  datatype Report = Report(kind: Option<CommandType>, arg1: Result<Option<string>, Fault>, arg2: Result<Option<u16>, Fault>)

  const PushSeven: Instruction := Instruction(Push, Some("constant"), Some(7))
  const PushEight: Instruction := Instruction(Push, Some("constant"), Some(8))
  const Add: Instruction := Instruction(Arithmetic, Some("add"), None)

  /** The three lines of the program, as `Parser::create` should keep them. */
  const ProgramLines: seq<string> := ["push constant 7", "push constant 8", "add"]

  /** `push constant n` is the canonical text of the push of constant n. */
  lemma RenderPushConstant(n: u16)
    ensures WellFormed(Instruction(Push, Some("constant"), Some(n)))
    ensures Render(Instruction(Push, Some("constant"), Some(n))) == "push constant " + Decimal(n)
  {
    assert IsWord("constant");
    var d := Decimal(n);
    assert Words(Instruction(Push, Some("constant"), Some(n))) == ["push", "constant", d];
    var ws := ["push", "constant", d];
    assert ws[1..] == ["constant", d] && ws[1..][1..] == [d];
    assert Unwords(ws[1..][1..]) == d;
    assert Unwords(ws[1..]) == "constant" + (" " + d);
    assert Unwords(ws) == "push" + (" " + ("constant" + (" " + d)));
    assert "push" + (" " + ("constant" + (" " + d))) == "push constant " + d;
  }

  /** The three lines of the program are the canonical texts of its three commands. */
  lemma ProgramIsRendered()
    ensures WellFormed(PushSeven) && Render(PushSeven) == ProgramLines[0]
    ensures WellFormed(PushEight) && Render(PushEight) == ProgramLines[1]
    ensures WellFormed(Add) && Render(Add) == ProgramLines[2]
  {
    RenderPushConstant(7);
    RenderPushConstant(8);
    assert Decimal(7) == "7" && Decimal(8) == "8";
  }

  /** The program text is its three lines, each ended by a line break. */
  lemma ProgramText()
    ensures Program == JoinLines(ProgramLines)
  {
    JoinLinesCons("add", []);
    JoinLinesCons("push constant 8", ["add"]);
    JoinLinesCons("push constant 7", ["push constant 8", "add"]);
  }

  /** Each line of the program is one line of text with nothing to clean away. */
  lemma ProgramLinesAreClean()
    ensures forall l :: l in ProgramLines ==> IsPlainLine(l) && IsClean(l)
  {
    forall l | l in ProgramLines
      ensures IsPlainLine(l) && IsClean(l)
    {
      assert forall i :: 0 <= i < |l| ==> l[i] != '/' && l[i] != '\n';
    }
  }

  /** `Parser::create` keeps the three lines of the program as they are. */
  lemma ProgramIsNormal()
    ensures Normalise(Program) == ProgramLines
  {
    ProgramText();
    ProgramLinesAreClean();
    LinesOfJoinLines(ProgramLines);
    NormaliseLinesOfClean(ProgramLines);
  }

  /** What the test expects of a line: the answers of the three accessors on its tokens. */
  function LineReport(ts: seq<string>): Report {
    Report(CommandTypeOf(ts), Arg1Of(ts), Arg2Of(ts))
  }

  /** What the test asserts of the three lines, then of the position past the last. */
  const ExpectedReports: seq<Report> := [
    Report(Some(Push), Ok(Some("constant")), Ok(Some(7))),
    Report(Some(Push), Ok(Some("constant")), Ok(Some(8))),
    Report(Some(Arithmetic), Ok(Some("add")), Ok(None)),
    Report(None, Ok(None), Ok(None))
  ]

  /** The reports on the three lines `Parser::create` keeps from the program. */
  lemma ProgramReports(ls: seq<string>)
    requires ls == Normalise(Program)
    ensures |ls| == 3
    ensures LineReport(Tokens(ls[0])) == ExpectedReports[0]
    ensures LineReport(Tokens(ls[1])) == ExpectedReports[1]
    ensures LineReport(Tokens(ls[2])) == ExpectedReports[2]
  {
    ProgramIsNormal();
    ProgramLineReports();
  }

  /** The reports on the three lines of the program. */
  lemma ProgramLineReports()
    ensures LineReport(Tokens(ProgramLines[0])) == ExpectedReports[0]
    ensures LineReport(Tokens(ProgramLines[1])) == ExpectedReports[1]
    ensures LineReport(Tokens(ProgramLines[2])) == ExpectedReports[2]
  {
    var l0, l1, l2 := ProgramLines[0], ProgramLines[1], ProgramLines[2];
    ProgramIsRendered();
    ReportOfCommand(PushSeven, l0, ExpectedReports[0]);
    ReportOfCommand(PushEight, l1, ExpectedReports[1]);
    ReportOfCommand(Add, l2, ExpectedReports[2]);
  }

  /** The canonical text of a command reports that command's type and operands. */
  lemma ReportOfCommand(i: Instruction, line: string, expected: Report)
    requires WellFormed(i) && Render(i) == line
    requires expected == Report(Some(i.kind), Ok(i.arg1), Ok(i.arg2))
    ensures LineReport(Tokens(line)) == expected
  {
    DecodeRender(i);
    DecodeAgreesWithAccessors(Tokens(line));
  }

  /** One round of the test: command type, then `arg1`, then `arg2` of the current line. */
  method ReadCommand(parser: Parser) returns (report: Report)
    requires parser.Valid()
    modifies parser`currentCommandType
    ensures parser.Valid()
    ensures parser.lines == old(parser.lines) && parser.currentInstruction == old(parser.currentInstruction)
    ensures report == if parser.currentInstruction < |parser.lines|
                      then LineReport(Tokens(parser.lines[parser.currentInstruction]))
                      else Report(None, Ok(None), Ok(None))
  {
    var k := parser.GetCommandType();
    var a1 := parser.Arg1();
    var a2 := parser.Arg2();
    report := Report(k, a1, a2);
  }

  /**
    `test_command_type`: push constant 7, push constant 8 and add are read
    in order; no line follows the last one, and past it every accessor
    reports nothing.
  */
  method ReplayCommandTypeTest() returns (reports: seq<Report>, moreAtLast: bool)
    ensures reports == ExpectedReports
    ensures !moreAtLast
  {
    var parser := new Parser.Create(Program);
    var first := ReadCommand(parser);
    assert first == ExpectedReports[0] by { ProgramReports(parser.lines); }
    parser.Advance();
    var second := ReadCommand(parser);
    assert second == ExpectedReports[1] by { ProgramReports(parser.lines); }
    parser.Advance();
    var third := ReadCommand(parser);
    assert third == ExpectedReports[2] by { ProgramReports(parser.lines); }
    moreAtLast := parser.HasMoreLines();
    assert !moreAtLast by { ProgramReports(parser.lines); }
    parser.Advance();
    var past := ReadCommand(parser);
    assert past == ExpectedReports[3] by { ProgramReports(parser.lines); }
    reports := [first, second, third, past];
  }
}
