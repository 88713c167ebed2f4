/**
  The Hack assembly the translator emits, as far as the emitters use it:
  A-instructions `@value` and jump-free C-instructions `dest=comp`.
  `src/lib.rs` has no such definition: this module is an addition that
  gives the emitted listings a syntax to be checked against, and models
  no code of the translator.
*/
module Hack {
  import opened Text

  /** One of the three registers A, D and M (M being the memory word at A). */
  predicate IsRegister(c: char) {
    c == 'A' || c == 'D' || c == 'M'
  }

  /** The destination part of a C-instruction: M, D, MD, A, AM, AD or AMD. */
  predicate IsDest(s: string) {
    (|s| == 1 && IsRegister(s[0])) ||
    (|s| == 2 && ((s[0] == 'M' && s[1] == 'D') || (s[0] == 'A' && (s[1] == 'M' || s[1] == 'D')))) ||
    (|s| == 3 && s[0] == 'A' && s[1] == 'M' && s[2] == 'D')
  }

  /**
    The computation part of a C-instruction: 0, 1, -1, a register X, !X,
    -X, X+1, X-1, or D combined with A or M by +, -, &, |, and A-D, M-D.
  */
  predicate IsComp(s: string) {
    (|s| == 1 && (s[0] == '0' || s[0] == '1' || IsRegister(s[0]))) ||
    (|s| == 2 && ((s[0] == '-' && (s[1] == '1' || IsRegister(s[1]))) || (s[0] == '!' && IsRegister(s[1])))) ||
    (|s| == 3 && IsRegister(s[0]) && (s[1] == '+' || s[1] == '-') && s[2] == '1') ||
    (|s| == 3 && s[0] == 'D' && (s[1] == '+' || s[1] == '-' || s[1] == '&' || s[1] == '|') &&
       (s[2] == 'A' || s[2] == 'M')) ||
    (|s| == 3 && (s[0] == 'A' || s[0] == 'M') && s[1] == '-' && s[2] == 'D')
  }

  /** A character a Hack symbol may contain. */
  predicate IsSymbolChar(c: char) {
    'a' <= c <= 'z' || 'A' <= c <= 'Z' || IsDigit(c) || c == '_' || c == '.' || c == '$' || c == ':'
  }

  /** `@n` with a decimal numeral, or `@sym` with a symbol that does not start with a digit. */
  predicate IsAInstruction(l: string) {
    |l| >= 2 && l[0] == '@' &&
      (AllDigits(l[1..]) || (!IsDigit(l[1]) && forall i :: 1 <= i < |l| ==> IsSymbolChar(l[i])))
  }

  /** Where the first '=' of `l` is, or `|l|` when there is none. */
  function EqualsIndex(l: string): (i: nat)
    ensures i <= |l|
    ensures i < |l| ==> l[i] == '='
  {
    if l == [] then 0
    else if l[0] == '=' then 0
    else 1 + EqualsIndex(l[1..])
  }

  /** `dest=comp` with a known destination and computation, and no jump. */
  predicate IsCInstruction(l: string) {
    var i := EqualsIndex(l);
    i < |l| && IsDest(l[..i]) && IsComp(l[i + 1..])
  }

  predicate IsInstruction(l: string) {
    IsAInstruction(l) || IsCInstruction(l)
  }

  /** Text made of lines that are each a Hack instruction. */
  predicate IsListing(code: string) {
    var ls := Lines(code);
    forall i :: 0 <= i < |ls| ==> IsInstruction(ls[i])
  }
}

/**
  `Code`: the two emitters of `src/lib.rs`, each a fixed listing. Only
  `add` and `push constant` produce code; every other command gives the
  empty string.
*/
module Code {
  import opened Wrappers
  import opened Text
  import opened Hack
  import opened VmParser

  /** The listing `generate_arithmetic` emits for `add`, line by line. */
  const AddLines: seq<string> := ["@SP", "M=M-1", "D=M", "M=M-1", "D=D+M", "@R0", "M=D"]

  /** The listing `generate_push_pop` emits for `push constant index`, line by line. */
  function PushConstantLines(index: u16): seq<string> {
    ["@" + Decimal(index), "D=A", "@SP", "M=D", "M=D"]
  }

  /**
    `generate_arithmetic`: the code of an arithmetic command. It is not
    empty exactly for `add`, and it is made of whole lines.
  */
  function GenerateArithmetic(command: string): (assembly: string)
    ensures assembly != [] <==> command == "add"
    ensures assembly == [] || assembly[|assembly| - 1] == '\n'
  {
    match command
    case "add" =>
      "@SP\n" + "M=M-1\n" + "D=M\n" + "M=M-1\n" + "D=D+M\n" + "@R0\n" + "M=D\n"
    case _ => ""
  }

  /**
    `generate_push_pop`: the code of a push or pop. It is not empty exactly
    for `push constant`, and it is made of whole lines.
  */
  function GeneratePushPop(command: CommandType, segment: string, index: u16): (assembly: string)
    ensures assembly != [] <==> command == Push && segment == "constant"
    ensures assembly == [] || assembly[|assembly| - 1] == '\n'
  {
    match segment
    case "constant" =>
      (match command
       case Push => "@" + Decimal(index) + "\n" + "D=A\n" + "@SP\n" + "M=D\n" + "M=D\n"
       case _ => "")
    case _ => ""
  }

  /** The text of the `add` listing is its seven lines, each ended by a line break. */
  lemma AddText()
    ensures GenerateArithmetic("add") == JoinLines(AddLines)
  {
    JoinLinesCons("M=D", []);
    JoinLinesCons("@R0", ["M=D"]);
    JoinLinesCons("D=D+M", ["@R0", "M=D"]);
    JoinLinesCons("M=M-1", ["D=D+M", "@R0", "M=D"]);
    JoinLinesCons("D=M", ["M=M-1", "D=D+M", "@R0", "M=D"]);
    JoinLinesCons("M=M-1", ["D=M", "M=M-1", "D=D+M", "@R0", "M=D"]);
    JoinLinesCons("@SP", ["M=M-1", "D=M", "M=M-1", "D=D+M", "@R0", "M=D"]);
  }

  /** The text of the `push constant` listing is its five lines, each ended by a line break. */
  lemma PushConstantText(index: u16)
    ensures GeneratePushPop(Push, "constant", index) == JoinLines(PushConstantLines(index))
  {
    var ls := PushConstantLines(index);
    JoinLinesCons("M=D", []);
    JoinLinesCons("M=D", ["M=D"]);
    JoinLinesCons("@SP", ["M=D", "M=D"]);
    JoinLinesCons("D=A", ["@SP", "M=D", "M=D"]);
    JoinLinesCons(ls[0], ["D=A", "@SP", "M=D", "M=D"]);
  }

  /** `r=comp` with a one-register destination is a C-instruction. */
  lemma SingleDestInstruction(l: string)
    requires |l| >= 3 && IsRegister(l[0]) && l[1] == '=' && IsComp(l[2..])
    ensures IsInstruction(l)
  {
    assert EqualsIndex(l) == 1;
    assert l[..1] == [l[0]];
  }

  /** The fixed lines of both listings are Hack instructions. */
  lemma FixedLinesAreInstructions()
    ensures IsInstruction("@SP") && IsInstruction("@R0")
    ensures IsInstruction("M=M-1") && IsInstruction("D=M") && IsInstruction("D=D+M")
    ensures IsInstruction("M=D") && IsInstruction("D=A")
  {
    assert IsAInstruction("@SP") && IsAInstruction("@R0");
    SingleDestInstruction("M=M-1");
    SingleDestInstruction("D=M");
    SingleDestInstruction("D=D+M");
    SingleDestInstruction("M=D");
    SingleDestInstruction("D=A");
  }

  /** The first line of the `push constant` listing: `@` and the index in decimal. */
  lemma PushConstantFirstLine(index: u16)
    ensures PushConstantLines(index)[0][1..] == Decimal(index)
    ensures IsPlainLine(PushConstantLines(index)[0]) && IsAInstruction(PushConstantLines(index)[0])
  {
    var l := PushConstantLines(index)[0];
    var d := Decimal(index);
    assert l[1..] == d;
    assert forall i :: 1 <= i < |l| ==> l[i] == d[i - 1];
  }

  /** The `add` listing reads back as its seven lines. */
  lemma AddListing()
    ensures Lines(GenerateArithmetic("add")) == AddLines
  {
    AddText();
    assert forall l :: l in AddLines ==> IsPlainLine(l);
    LinesOfJoinLines(AddLines);
  }

  /** Every line of the `add` listing is a Hack instruction. */
  lemma AddInstructions()
    ensures forall i :: 0 <= i < |AddLines| ==> IsInstruction(AddLines[i])
  {
    FixedLinesAreInstructions();
  }

  /**
    The `add` listing, read back as lines, is seven Hack instructions; any
    other command emits no line at all.
  */
  lemma ArithmeticListing(command: string)
    ensures command == "add" ==> Lines(GenerateArithmetic(command)) == AddLines
    ensures command != "add" ==> Lines(GenerateArithmetic(command)) == []
    ensures IsListing(GenerateArithmetic(command))
  {
    if command == "add" {
      AddListing();
      AddInstructions();
    }
  }

  /** The `push constant` listing reads back as its five lines. */
  lemma PushConstantListing(index: u16)
    ensures Lines(GeneratePushPop(Push, "constant", index)) == PushConstantLines(index)
  {
    var ls := PushConstantLines(index);
    PushConstantText(index);
    PushConstantFirstLine(index);
    assert forall l :: l in ls ==> IsPlainLine(l) by {
      assert forall l :: l in ls ==> l == ls[0] || l == "D=A" || l == "@SP" || l == "M=D";
    }
    LinesOfJoinLines(ls);
  }

  /** Every line of the `push constant` listing is a Hack instruction. */
  lemma PushConstantInstructions(index: u16)
    ensures forall i :: 0 <= i < |PushConstantLines(index)| ==> IsInstruction(PushConstantLines(index)[i])
  {
    PushConstantFirstLine(index);
    FixedLinesAreInstructions();
  }

  /**
    The `push constant` listing, read back as lines, is five Hack
    instructions, and the number of its first line parses back to the
    index; any other push or pop emits no line at all.
  */
  lemma PushPopListing(command: CommandType, segment: string, index: u16)
    ensures command == Push && segment == "constant" ==>
              Lines(GeneratePushPop(command, segment, index)) == PushConstantLines(index)
    ensures command == Push && segment == "constant" ==>
              ParseU16(PushConstantLines(index)[0][1..]) == Some(index)
    ensures !(command == Push && segment == "constant") ==> Lines(GeneratePushPop(command, segment, index)) == []
    ensures IsListing(GeneratePushPop(command, segment, index))
  {
    if command == Push && segment == "constant" {
      PushConstantListing(index);
      PushConstantFirstLine(index);
      ParseU16OfDecimal(index);
      PushConstantInstructions(index);
    }
  }
}

/** `CodeWriter`: where the emitted code accumulates before it is written out. */
module Writer {
  import opened Wrappers
  import opened Text

  class CodeWriter {
    var outputFile: string
    var assemblyCode: string

    /** The writer `CodeWriter::new` builds: the output path and no code yet. */
    constructor (outputFile: string)
      ensures this.outputFile == outputFile && assemblyCode == []
    {
      this.outputFile := outputFile;
      assemblyCode := [];
    }

    /**
      `add_assembly_code`: the code is appended to what was there, the
      output path stays as it was, and the call always succeeds.
    */
    method AddAssemblyCode(code: string) returns (r: Result<(), string>)
      modifies this`assemblyCode
      ensures r == Ok(())
      ensures assemblyCode == old(assemblyCode) + code
    {
      assemblyCode := assemblyCode + code;
      r := Ok(());
    }
  }

  lemma {:induction false} JoinLinesAppend(a: seq<string>, b: seq<string>)
    ensures JoinLines(a + b) == JoinLines(a) + JoinLines(b)
  {
    if a == [] {
      assert a + b == b;
    } else {
      assert (a + b)[1..] == a[1..] + b;
      JoinLinesAppend(a[1..], b);
    }
  }

  /**
    Appending two listings made of whole lines gives a text whose lines
    are those of the first listing followed by those of the second.
  */
  lemma ListingsConcatenate(a: seq<string>, b: seq<string>)
    requires forall l :: l in a ==> IsPlainLine(l)
    requires forall l :: l in b ==> IsPlainLine(l)
    ensures Lines(JoinLines(a) + JoinLines(b)) == a + b
  {
    JoinLinesAppend(a, b);
    LinesOfJoinLines(a + b);
  }
}
