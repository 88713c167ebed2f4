/**
  The VM-instruction parser of `src/lib.rs`: the line normaliser behind
  `Parser::create`, the keyword table of `command_type`, the operand rules
  of `arg1` and `arg2`, and the `Parser` object itself, whose cursor moves
  over the normalised lines and which caches the command type of the
  current line until the cursor moves.
*/
module VmParser {
  import opened Wrappers
  import opened Text

  /** The nine kinds of VM command. */
  datatype CommandType = Arithmetic | Push | Pop | Label | Goto | If | Function | Return | Call

  // ------------------------------------------------------------ normaliser

  /** The comment marker "//" starts at position `i` of `s`. */
  predicate MarkerAt(s: string, i: int) {
    0 <= i < |s| - 1 && s[i] == '/' && s[i + 1] == '/'
  }

  /** `s` contains the comment marker "//". */
  ghost predicate HasComment(s: string) {
    exists i :: MarkerAt(s, i)
  }

  /** Where `find("//")` finds the first comment marker, or `|s|` when there is none. */
  function CommentStart(s: string): (i: nat)
    ensures i <= |s| && !HasComment(s[..i])
    ensures forall j :: 0 <= j < i ==> !MarkerAt(s, j)
    ensures i < |s| ==> MarkerAt(s, i)
  {
    if |s| < 2 then |s|
    else if s[0] == '/' && s[1] == '/' then 0
    else
      var i := 1 + CommentStart(s[1..]);
      assert forall j :: 0 <= j < i ==> !MarkerAt(s, j) by {
        forall j | 0 < j < i
          ensures !MarkerAt(s, j)
        {
          assert !MarkerAt(s[1..], j - 1);
        }
      }
      assert !HasComment(s[..i]) by {
        forall j | 0 <= j < i - 1
          ensures !MarkerAt(s[..i], j)
        {
          if j > 0 {
            assert !MarkerAt(s[1..][..i - 1], j - 1);
            assert s[..i][j] == s[1..][..i - 1][j - 1];
            assert s[..i][j + 1] == s[1..][..i - 1][j];
          }
        }
      }
      i
  }

  /** A line as the parser keeps it: not empty, no comment, no surrounding whitespace. */
  ghost predicate IsClean(l: string) {
    l != [] && !HasComment(l) && !IsSpace(l[0]) && !IsSpace(l[|l| - 1])
  }

  lemma NoCommentInInfix(s: string, i: nat, j: nat)
    requires i <= j <= |s| && !HasComment(s)
    ensures !HasComment(s[i..j])
  {
    forall p | 0 <= p < j - i - 1
      ensures !MarkerAt(s[i..j], p)
    {
      assert !MarkerAt(s, i + p);
      assert s[i..j][p] == s[i + p] && s[i..j][p + 1] == s[i + p + 1];
    }
  }

  /** A piece of the code before the comment has no comment, and no line break if the line has none. */
  lemma PieceOfCode(line: string, n: nat, k: nat, r: string)
    requires n <= |line| && !HasComment(line[..n])
    requires k + |r| <= n && r == line[..n][k..k + |r|]
    ensures !HasComment(r) && ('\n' !in line ==> '\n' !in r)
  {
    NoCommentInInfix(line[..n], k, k + |r|);
    assert r == line[k..k + |r|];
    assert forall c :: c in r ==> c in line;
  }

  /** The code before the first comment marker, trimmed, has no comment and no new line break. */
  lemma CodeBeforeComment(line: string)
    ensures !HasComment(Trim(line[..CommentStart(line)]))
    ensures '\n' !in line ==> '\n' !in Trim(line[..CommentStart(line)])
  {
    var n := CommentStart(line);
    var code := line[..n];
    var r := Trim(code);
    var k := TrimIsInfix(code);
    assert !HasComment(code) && k + |r| <= n && r == code[k..k + |r|];
    PieceOfCode(line, n, k, r);
  }

  /**
    One line of `Parser::create`: cut at the first "//", then trimmed. The
    result is empty or clean, and has no line break if the line has none.
  */
  function CleanLine(line: string): (r: string)
    ensures !HasComment(r)
    ensures r == [] || (!IsSpace(r[0]) && !IsSpace(r[|r| - 1]))
    ensures '\n' !in line ==> '\n' !in r
  {
    CodeBeforeComment(line);
    Trim(line[..CommentStart(line)])
  }

  /**
    The tail of the iterator chain of `Parser::create`: map every line
    through `f`, then drop the lines that came out empty.
  */
  function KeepNonEmpty(ls: seq<string>, f: string -> string): (r: seq<string>)
    ensures |r| <= |ls|
    ensures forall j :: 0 <= j < |r| ==> r[j] != []
  {
    if ls == [] then []
    else
      var c := f(ls[0]);
      (if c == [] then [] else [c]) + KeepNonEmpty(ls[1..], f)
  }

  /** `Parser::create` on lines already split: clean each line, drop the empty ones. */
  function NormaliseLines(ls: seq<string>): (r: seq<string>)
    ensures |r| <= |ls|
    ensures forall j :: 0 <= j < |r| ==> r[j] != []
  {
    KeepNonEmpty(ls, CleanLine)
  }

  /** Mapping then filtering works line by line: it distributes over concatenation. */
  lemma {:induction false} KeepNonEmptyAppend(a: seq<string>, b: seq<string>, f: string -> string)
    ensures KeepNonEmpty(a + b, f) == KeepNonEmpty(a, f) + KeepNonEmpty(b, f)
  {
    if a == [] {
      assert a + b == b;
    } else {
      assert (a + b)[1..] == a[1..] + b;
      KeepNonEmptyAppend(a[1..], b, f);
    }
  }

  /**
    The positions, in increasing order, of the lines that `f` does not
    map to the empty string: exactly the lines that are kept.
  */
  function KeptPositions(ls: seq<string>, f: string -> string): (ps: seq<nat>)
    ensures |ps| <= |ls|
    ensures forall j :: 0 <= j < |ps| ==> ps[j] < |ls|
    ensures forall j, j' :: 0 <= j < j' < |ps| ==> ps[j] < ps[j']
    ensures forall i :: 0 <= i < |ls| ==> (i in ps <==> f(ls[i]) != [])
  {
    if ls == [] then []
    else
      var n := |ls| - 1;
      var front := KeptPositions(ls[..n], f);
      var last: seq<nat> := if f(ls[n]) == [] then [] else [n];
      var ps := front + last;
      assert forall i :: 0 <= i < |ls| ==> (i in ps <==> f(ls[i]) != []) by {
        forall i | 0 <= i < |ls|
          ensures i in ps <==> f(ls[i]) != []
        {
          assert i in ps <==> i in front || i in last;
          if i < n {
            assert ls[..n][i] == ls[i];
          } else {
            assert i !in front;
          }
        }
      }
      ps
  }

  /**
    What is kept, line by line: the j-th kept line is the image under `f`
    of the input line at the j-th kept position.
  */
  lemma {:induction false} KeepNonEmptyKeepsOrder(ls: seq<string>, f: string -> string)
    ensures |KeepNonEmpty(ls, f)| == |KeptPositions(ls, f)|
    ensures forall j :: 0 <= j < |KeptPositions(ls, f)| ==>
              KeepNonEmpty(ls, f)[j] == f(ls[KeptPositions(ls, f)[j]])
  {
    if ls != [] {
      var n := |ls| - 1;
      var init := ls[..n];
      var kept := KeepNonEmpty(init, f);
      var ps := KeptPositions(init, f);
      var c := f(ls[n]);
      var last := if c == [] then [] else [c];
      var lastPs: seq<nat> := if c == [] then [] else [n];
      assert KeepNonEmpty(ls, f) == kept + last by {
        assert ls == init + [ls[n]];
        KeepNonEmptyAppend(init, [ls[n]], f);
      }
      assert KeptPositions(ls, f) == ps + lastPs;
      assert |kept + last| == |ps + lastPs| &&
             forall j :: 0 <= j < |ps + lastPs| ==> (kept + last)[j] == f(ls[(ps + lastPs)[j]]) by {
        KeepNonEmptyKeepsOrder(init, f);
        SnocPointwise(ls, f, kept, ps);
      }
    }
  }

  /**
    One more line at the end of the input: if `kept` is the image of the
    lines of the front at positions `ps`, adding the last line (when it
    is kept) and its position keeps that correspondence.
  */
  lemma SnocPointwise(ls: seq<string>, f: string -> string, kept: seq<string>, ps: seq<nat>)
    requires ls != [] && |kept| == |ps|
    requires forall j :: 0 <= j < |ps| ==> ps[j] < |ls| - 1 && kept[j] == f(ls[..|ls| - 1][ps[j]])
    ensures var n := |ls| - 1;
            var c := f(ls[n]);
            var last := if c == [] then [] else [c];
            var lastPs: seq<nat> := if c == [] then [] else [n];
            |kept + last| == |ps + lastPs| &&
            forall j :: 0 <= j < |ps + lastPs| ==> (kept + last)[j] == f(ls[(ps + lastPs)[j]])
  {
    var n := |ls| - 1;
    var c := f(ls[n]);
    var last := if c == [] then [] else [c];
    var lastPs: seq<nat> := if c == [] then [] else [n];
    forall j | 0 <= j < |ps + lastPs|
      ensures (kept + last)[j] == f(ls[(ps + lastPs)[j]])
    {
      if j < |ps| {
        var p := ps[j];
        assert (ps + lastPs)[j] == p && (kept + last)[j] == kept[j];
        assert ls[..n][p] == ls[p];
      } else {
        assert (ps + lastPs)[j] == n && (kept + last)[j] == c;
      }
    }
  }

  /** Non-empty lines that `f` leaves alone are all kept, unchanged. */
  lemma {:induction false} KeepNonEmptyOfFixed(ls: seq<string>, f: string -> string)
    requires forall i :: 0 <= i < |ls| ==> ls[i] != [] && f(ls[i]) == ls[i]
    ensures KeepNonEmpty(ls, f) == ls
  {
    if ls != [] {
      assert forall i :: 0 <= i < |ls| - 1 ==> ls[1..][i] == ls[i + 1];
      KeepNonEmptyOfFixed(ls[1..], f);
    }
  }

  /**
    The normaliser keeps at most as many lines as it is given, every line
    it keeps is clean, and it adds no line break.
  */
  lemma NormaliseLinesAreClean(ls: seq<string>)
    ensures |NormaliseLines(ls)| <= |ls|
    ensures forall l :: l in NormaliseLines(ls) ==> IsClean(l)
    ensures (forall l :: l in ls ==> '\n' !in l) ==> forall l :: l in NormaliseLines(ls) ==> '\n' !in l
  {
    var r := NormaliseLines(ls);
    var ps := KeptPositions(ls, CleanLine);
    KeepNonEmptyKeepsOrder(ls, CleanLine);
    forall l | l in r
      ensures IsClean(l) && ((forall l' :: l' in ls ==> '\n' !in l') ==> '\n' !in l)
    {
      var j :| 0 <= j < |r| && r[j] == l;
      var p := ps[j];
      assert p in ps;
      assert l == CleanLine(ls[p]) && l != [];
      assert ls[p] in ls;
    }
  }

  /**
    `Parser::create`: the lines `Parser` stores for a program text. Each is
    clean and is one line of text (no '\n', not ending in '\r').
  */
  function Normalise(contents: string): (r: seq<string>)
    ensures forall l :: l in r ==> IsClean(l) && IsPlainLine(l)
  {
    NormaliseLinesAreClean(Lines(contents));
    NormaliseLines(Lines(contents))
  }

  /** A clean line passes through CleanLine unchanged. */
  lemma CleanLineOfClean(l: string)
    requires IsClean(l)
    ensures CleanLine(l) == l
  {
    assert CommentStart(l) == |l|;
    assert l[..|l|] == l;
    TrimOfTrimmed(l);
  }

  /** Clean lines pass through the normaliser unchanged. */
  lemma NormaliseLinesOfClean(ls: seq<string>)
    requires forall l :: l in ls ==> IsClean(l)
    ensures NormaliseLines(ls) == ls
  {
    forall i | 0 <= i < |ls|
      ensures ls[i] != [] && CleanLine(ls[i]) == ls[i]
    {
      assert ls[i] in ls;
      CleanLineOfClean(ls[i]);
    }
    KeepNonEmptyOfFixed(ls, CleanLine);
  }

  /** Normalising twice is normalising once. */
  lemma NormaliseLinesIdempotent(ls: seq<string>)
    ensures NormaliseLines(NormaliseLines(ls)) == NormaliseLines(ls)
  {
    NormaliseLinesAreClean(ls);
    NormaliseLinesOfClean(NormaliseLines(ls));
  }

  /**
    Writing the stored lines back out as text and parsing that text again
    gives the same lines: comments and blank lines carry no instruction.
  */
  lemma NormaliseOfNormalisedText(contents: string)
    ensures Normalise(JoinLines(Normalise(contents))) == Normalise(contents)
  {
    var ls := Normalise(contents);
    LinesOfJoinLines(ls);
    NormaliseLinesOfClean(ls);
  }

  /**
    What `Parser::create` stores, line by line: the j-th stored line is the
    cleaned form of the j-th line of the text that does not clean to
    nothing, and no other line of the text is stored.
  */
  lemma NormaliseKeepsOrder(contents: string)
    ensures |Normalise(contents)| == |KeptPositions(Lines(contents), CleanLine)|
    ensures forall j :: 0 <= j < |Normalise(contents)| ==>
              Normalise(contents)[j] == CleanLine(Lines(contents)[KeptPositions(Lines(contents), CleanLine)[j]])
  {
    KeepNonEmptyKeepsOrder(Lines(contents), CleanLine);
  }

  // ---------------------------------------------------------- keyword table

  /** The operator names that `command_type` classifies as arithmetic. */
  const ArithmeticOps: set<string> := {"add", "sub", "neg", "eq", "gt", "lt", "and", "or", "not"}

  /** All seventeen keywords `command_type` recognises. */
  const Keywords: set<string> :=
    ArithmeticOps + {"push", "pop", "label", "goto", "if", "function", "return", "call"}

  /** The keyword table of `command_type`; anything else is unrecognised. */
  function Keyword(token: string): (k: Option<CommandType>)
    ensures k.Some? <==> token in Keywords
    ensures k == Some(Arithmetic) <==> token in ArithmeticOps
  {
    match token
    case "add" => Some(Arithmetic)
    case "sub" => Some(Arithmetic)
    case "neg" => Some(Arithmetic)
    case "eq" => Some(Arithmetic)
    case "gt" => Some(Arithmetic)
    case "lt" => Some(Arithmetic)
    case "and" => Some(Arithmetic)
    case "or" => Some(Arithmetic)
    case "not" => Some(Arithmetic)
    case "push" => Some(Push)
    case "pop" => Some(Pop)
    case "label" => Some(Label)
    case "goto" => Some(Goto)
    case "if" => Some(If)
    case "function" => Some(Function)
    case "return" => Some(Return)
    case "call" => Some(Call)
    case _ => None
  }

  /** The one keyword of each non-arithmetic command type. */
  function Mnemonic(k: CommandType): string
    requires k != Arithmetic
  {
    match k
    case Push => "push"
    case Pop => "pop"
    case Label => "label"
    case Goto => "goto"
    case If => "if"
    case Function => "function"
    case Return => "return"
    case Call => "call"
  }

  /**
    Mnemonic and the keyword table are inverse on the eight non-arithmetic
    command types; the conditional jump is spelt `if`, so `if-goto` is not
    recognised.
  */
  lemma KeywordOfMnemonic(k: CommandType, token: string)
    requires k != Arithmetic
    ensures Keyword(Mnemonic(k)) == Some(k)
    ensures Keyword(token) == Some(k) ==> token == Mnemonic(k)
    ensures Keyword("if-goto") == None
  {
  }

  /** What `command_type` computes for a line split into tokens: the keyword of the first. */
  function CommandTypeOf(ts: seq<string>): (k: Option<CommandType>)
    ensures k.Some? <==> ts != [] && ts[0] in Keywords
    ensures k == Some(Arithmetic) <==> ts != [] && ts[0] in ArithmeticOps
  {
    if ts == [] then None else Keyword(ts[0])
  }

  // ---------------------------------------------------------------- operands

  /** The panics of `arg1` and `arg2`: an `unwrap` on a missing token or a failed parse. */
  datatype Fault = MissingOperand | InvalidIndex

  /** The command types whose `arg2` is a number. */
  predicate TakesIndex(k: CommandType) {
    k == Push || k == Pop || k == Function || k == Call
  }

  /** What `arg1` computes for a line split into tokens. */
  function Arg1Of(ts: seq<string>): (r: Result<Option<string>, Fault>)
    ensures r == Ok(None) <==> CommandTypeOf(ts) == None || CommandTypeOf(ts) == Some(Return)
    ensures r.Err? <==> CommandTypeOf(ts).Some? && CommandTypeOf(ts) != Some(Arithmetic) &&
                        CommandTypeOf(ts) != Some(Return) && |ts| < 2
    ensures r.Err? ==> r.error == MissingOperand
    ensures CommandTypeOf(ts) == Some(Arithmetic) ==> r == Ok(Some(ts[0]))
    ensures r.Ok? && r.value.Some? && CommandTypeOf(ts) != Some(Arithmetic) ==> |ts| >= 2 && r.value.value == ts[1]
  {
    match CommandTypeOf(ts)
    case None => Ok(None)
    case Some(Return) => Ok(None)
    case Some(Arithmetic) => Ok(Some(ts[0]))
    case Some(_) => if |ts| < 2 then Err(MissingOperand) else Ok(Some(ts[1]))
  }

  /** What `arg2` computes for a line split into tokens. */
  function Arg2Of(ts: seq<string>): (r: Result<Option<u16>, Fault>)
    ensures r == Ok(None) <==> CommandTypeOf(ts).None? || !TakesIndex(CommandTypeOf(ts).value)
    ensures r == Err(MissingOperand) <==> CommandTypeOf(ts).Some? && TakesIndex(CommandTypeOf(ts).value) && |ts| < 3
    ensures r == Err(InvalidIndex) <==>
              CommandTypeOf(ts).Some? && TakesIndex(CommandTypeOf(ts).value) && |ts| >= 3 && ParseU16(ts[2]).None?
    ensures r.Ok? && r.value.Some? ==> |ts| >= 3 && ParseU16(ts[2]) == r.value
  {
    var k := CommandTypeOf(ts);
    if k.None? || !TakesIndex(k.value) then Ok(None)
    else if |ts| < 3 then Err(MissingOperand)
    else
      match ParseU16(ts[2])
      case None => Err(InvalidIndex)
      case Some(n) => Ok(Some(n))
  }

  /** One parsed VM command: its type and the two operand accessors' answers. */
  datatype Instruction = Instruction(kind: CommandType, arg1: Option<string>, arg2: Option<u16>)

  /**
    The three accessors together on one line: None for an unrecognised
    line, the first panic `arg1` then `arg2` would raise, or the command.
  */
  function Decode(ts: seq<string>): Result<Option<Instruction>, Fault> {
    match CommandTypeOf(ts)
    case None => Ok(None)
    case Some(k) =>
      match Arg1Of(ts)
      case Err(e) => Err(e)
      case Ok(a1) =>
        match Arg2Of(ts)
        case Err(e) => Err(e)
        case Ok(a2) => Ok(Some(Instruction(k, a1, a2)))
  }

  /**
    The operand shape each command type has: an arithmetic command carries
    its operator name and no number, `return` carries nothing, push, pop,
    function and call a name and a number, label, goto and if a name only.
  */
  predicate WellFormed(i: Instruction) {
    if i.kind == Arithmetic then
      i.arg1.Some? && i.arg1.value in ArithmeticOps && i.arg2.None?
    else if i.kind == Return then
      i.arg1.None? && i.arg2.None?
    else
      i.arg1.Some? && IsWord(i.arg1.value) && (i.arg2.Some? <==> TakesIndex(i.kind))
  }

  /** The tokens of the canonical text of a well-formed command. */
  function Words(i: Instruction): (ws: seq<string>)
    requires WellFormed(i)
    ensures forall j :: 0 <= j < |ws| ==> IsWord(ws[j])
  {
    if i.kind == Arithmetic then [i.arg1.value]
    else if i.kind == Return then ["return"]
    else if i.arg2.Some? then [Mnemonic(i.kind), i.arg1.value, Decimal(i.arg2.value)]
    else [Mnemonic(i.kind), i.arg1.value]
  }

  /** The canonical text of a well-formed command, words separated by single spaces. */
  function Render(i: Instruction): string
    requires WellFormed(i)
  {
    Unwords(Words(i))
  }

  /** A decoded command is what the three accessors report one by one. */
  lemma DecodeAgreesWithAccessors(ts: seq<string>)
    ensures Decode(ts).Ok? && Decode(ts).value.Some? ==>
              CommandTypeOf(ts) == Some(Decode(ts).value.value.kind) &&
              Arg1Of(ts) == Ok(Decode(ts).value.value.arg1) &&
              Arg2Of(ts) == Ok(Decode(ts).value.value.arg2)
    ensures Decode(ts) == Ok(None) <==> CommandTypeOf(ts) == None
  {
  }

  /** Every command the parser accepts from a line of words has the operand shape of its type. */
  lemma DecodeWellFormed(ts: seq<string>)
    requires forall j :: 0 <= j < |ts| ==> IsWord(ts[j])
    ensures Decode(ts).Ok? && Decode(ts).value.Some? ==> WellFormed(Decode(ts).value.value)
  {
  }

  /**
    A line is read by its first tokens only: the words of a well-formed
    command, followed by anything at all, decode to that command.
  */
  lemma DecodeIgnoresTrailingTokens(i: Instruction, extra: seq<string>)
    requires WellFormed(i)
    ensures Decode(Words(i) + extra) == Ok(Some(i))
  {
    var ws := Words(i) + extra;
    assert forall j :: 0 <= j < |Words(i)| ==> ws[j] == Words(i)[j];
    CommandTypeOfWords(i, ws);
    assert Arg1Of(ws) == Ok(i.arg1);
    assert Arg2Of(ws) == Ok(i.arg2) by {
      if i.arg2.Some? {
        ParseU16OfDecimal(i.arg2.value);
      }
    }
  }

  /** A line that starts with the keyword of a well-formed command has that command's type. */
  lemma CommandTypeOfWords(i: Instruction, ws: seq<string>)
    requires WellFormed(i) && ws != [] && ws[0] == Words(i)[0]
    ensures CommandTypeOf(ws) == Some(i.kind)
  {
    if i.kind != Arithmetic {
      KeywordOfMnemonic(i.kind, ws[0]);
    }
  }

  /** The parser reads back every well-formed command from its canonical text. */
  lemma DecodeRender(i: Instruction)
    requires WellFormed(i)
    ensures Decode(Tokens(Render(i))) == Ok(Some(i))
  {
    TokensOfUnwords(Words(i));
    DecodeIgnoresTrailingTokens(i, []);
    assert Words(i) + [] == Words(i);
  }

  /**
    A command cut short before an operand its type needs is the panic of
    the `unwrap` on the missing token.
  */
  lemma DecodeTruncated(i: Instruction, n: nat)
    requires WellFormed(i) && 1 <= n < |Words(i)|
    ensures Decode(Words(i)[..n]) == Err(MissingOperand)
  {
    var ws := Words(i)[..n];
    CommandTypeOfWords(i, ws);
  }

  /**
    A command whose third token is not a u16 is the panic of the `unwrap`
    on the parse, when its type takes a number.
  */
  lemma DecodeBadIndex(i: Instruction, bad: string, extra: seq<string>)
    requires WellFormed(i) && TakesIndex(i.kind) && ParseU16(bad).None?
    ensures Decode(Words(i)[..2] + [bad] + extra) == Err(InvalidIndex)
  {
    var ws := Words(i)[..2] + [bad] + extra;
    assert ws[0] == Words(i)[0] && ws[1] == Words(i)[1] && ws[2] == bad;
    CommandTypeOfWords(i, ws);
  }

  // ------------------------------------------------------------------ Parser

  /** `Parser`: the normalised lines, a cursor, and a cache of the current command type. */
  class Parser {
    var lines: seq<string>
    var currentInstruction: nat
    var currentCommandType: Option<CommandType>

    /** The cache is empty or holds the command type of the line under the cursor. */
    ghost predicate Valid()
      reads this
    {
      currentCommandType.Some? ==>
        currentInstruction < |lines| && currentCommandType == CommandTypeOf(Tokens(lines[currentInstruction]))
    }

    /** The command type at the cursor; none past the last line. */
    function CurrentCommandType(): Option<CommandType>
      reads this
    {
      if currentInstruction < |lines| then CommandTypeOf(Tokens(lines[currentInstruction])) else None
    }

    /** `Parser::create`: the normalised lines, the cursor on the first, the cache empty. */
    constructor Create(contents: string)
      ensures Valid()
      ensures lines == Normalise(contents) && currentInstruction == 0 && currentCommandType == None
    {
      lines := Normalise(contents);
      currentInstruction := 0;
      currentCommandType := None;
    }

    /** `has_more_lines`: another line follows the one under the cursor. */
    function HasMoreLines(): (more: bool)
      reads this
      ensures more <==> currentInstruction + 1 < |lines|
    {
      |lines| > currentInstruction + 1
    }

    /**
      `advance`: the cursor moves on by one and the cache is cleared; it
      lands on a line exactly when HasMoreLines held before.
    */
    method Advance()
      modifies this
      ensures Valid()
      ensures lines == old(lines) && currentInstruction == old(currentInstruction) + 1
      ensures currentCommandType == None
      ensures old(HasMoreLines()) <==> currentInstruction < |lines|
    {
      currentInstruction := currentInstruction + 1;
      currentCommandType := None;
    }

    /**
      `command_type`: the command type at the cursor, which is also left in
      the cache, so that asking again gives the same answer.
    */
    method GetCommandType() returns (k: Option<CommandType>)
      requires Valid()
      modifies this`currentCommandType
      ensures Valid()
      ensures lines == old(lines) && currentInstruction == old(currentInstruction)
      ensures k == CurrentCommandType() && currentCommandType == k
    {
      if currentInstruction >= |lines| {
        return None;
      }
      if currentCommandType.Some? {
        return currentCommandType;
      }
      var words := Tokens(lines[currentInstruction]);
      if words != [] {
        k := Keyword(words[0]);
        currentCommandType := k;
      } else {
        k := None;
      }
    }

    /** `arg1`: the first operand of the current line, by command type. */
    method Arg1() returns (r: Result<Option<string>, Fault>)
      requires Valid()
      modifies this`currentCommandType
      ensures Valid()
      ensures lines == old(lines) && currentInstruction == old(currentInstruction)
      ensures currentCommandType == CurrentCommandType()
      ensures r == if currentInstruction < |lines| then Arg1Of(Tokens(lines[currentInstruction])) else Ok(None)
    {
      if currentInstruction >= |lines| {
        return Ok(None);
      }
      var kind := GetCommandType();
      var words := Tokens(lines[currentInstruction]);
      assert kind == CommandTypeOf(words);
      if kind == None || kind == Some(Return) {
        r := Ok(None);
      } else if kind == Some(Arithmetic) {
        r := Ok(Some(words[0]));
      } else if |words| < 2 {
        r := Err(MissingOperand);
      } else {
        r := Ok(Some(words[1]));
      }
      assert r == Arg1Of(words);
    }

    /** `arg2`: the numeric operand of the current line, by command type. */
    method Arg2() returns (r: Result<Option<u16>, Fault>)
      requires Valid()
      modifies this`currentCommandType
      ensures Valid()
      ensures lines == old(lines) && currentInstruction == old(currentInstruction)
      ensures currentCommandType == CurrentCommandType()
      ensures r == if currentInstruction < |lines| then Arg2Of(Tokens(lines[currentInstruction])) else Ok(None)
    {
      if currentInstruction >= |lines| {
        return Ok(None);
      }
      var kind := GetCommandType();
      var words := Tokens(lines[currentInstruction]);
      assert kind == CommandTypeOf(words);
      if kind == Some(Push) || kind == Some(Pop) || kind == Some(Function) || kind == Some(Call) {
        if |words| < 3 {
          r := Err(MissingOperand);
        } else {
          var n := ParseU16(words[2]);
          if n.None? {
            r := Err(InvalidIndex);
          } else {
            r := Ok(Some(n.value));
          }
        }
      } else {
        r := Ok(None);
      }
      assert r == Arg2Of(words);
    }
  }
}
