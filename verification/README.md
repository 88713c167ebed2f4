# vm_translator in Dafny

A model of the core of `vm_translator`, the first half of a translator
from the Nand2Tetris stack-machine language (VM code) to Hack assembly.
The model covers:

- the `Parser` that reads a VM program;
- the `CodeWriter` buffer that collects the emitted assembly;
- the two emitters of `Code`.

The modules follow `src/lib.rs`:

- `Wrappers` (`wrappers.dfy`): `Option` and `Result`.
- `Text` (`text.dfy`): the parts of Rust's string library the parser relies
  on, written out:
  - `char::is_whitespace` on ASCII;
  - `str::trim`;
  - `str::lines`: split at '\n' and drop one '\r' before it; a final
    '\n' adds no empty line;
  - `str::split_whitespace`;
  - `format!("{}", n)` for unsigned numbers;
  - `str::parse::<u16>`: an optional '+', then ASCII digits, with a value
    of at most 65535.
- `VmParser` (`vm_parser.dfy`):
  - the line normaliser of `Parser::create`;
  - the seventeen-keyword table of `command_type`;
  - the operand rules of `arg1` and `arg2`;
  - the `Parser` class: its cursor over the stored lines, and the cache of
    the current command type, which `advance` clears.

  A panic of an `unwrap` in `arg1`/`arg2` becomes an `Err` holding a
  `Fault`: `MissingOperand` for a missing token, `InvalidIndex` for a
  failed parse.
- `Hack`, `Code`, `Writer` (`code_writer.dfy`):
  - the Hack instruction syntax the emitted lines belong to;
  - `generate_arithmetic` and `generate_push_pop` as the literal text they
    build;
  - the `CodeWriter` class and its `add_assembly_code`.
- `ParserTest` (`unit_test.dfy`): the unit test `test_command_type`,
  replayed as a method whose postconditions are the test's assertions.

The parser is also given a decoder, `Decode`, which runs the three
accessors on one line. With it come:

- `Words`/`Render`: the canonical text of a command;
- round-trip lemmas between the two;
- the error cases: a command cut short, and a non-numeric index.

The comment cut, `trim` and the blank-line filter are related back to the
input text, line by line.

## Model

| member | source | states |
|---|---|---|
| `Text.Trim` | src/lib.rs:137 | the trimmed line neither starts nor ends with whitespace |
| `Text.TrimCutsOnlySpace` | src/lib.rs:137 | `trim` keeps a contiguous piece of the line and cuts only whitespace on either side of it |
| `Text.TrimOfTrimmed` | src/lib.rs:137 | a string without surrounding whitespace is left unchanged by `trim` |
| `Text.Lines` | src/lib.rs:130 | no line produced by `lines()` contains a line break |
| `Text.LinesOfJoinLines` | src/lib.rs:129-130 | `lines()` gives back exactly the lines of a text written as lines each ended by '\n', when no line holds '\n' or ends in '\r' |
| `Text.Tokens` | src/lib.rs:163 | every token of `split_whitespace` is non-empty and holds no whitespace |
| `Text.TokensOfUnwords` | src/lib.rs:163 | `split_whitespace` recovers exactly the words of a text that separates them by single spaces |
| `Text.Decimal` | src/lib.rs:344 | `format!("{}", index)` is a non-empty run of digits with no leading zero |
| `Text.DecimalValueOfDecimal` | src/lib.rs:344 | the digits `format!` writes denote the number written |
| `Text.ParseU16` | src/lib.rs:249 | `parse::<u16>` succeeds only on an optional '+' followed by at least one ASCII digit, and its value is the number those digits denote |
| `Text.ParseU16RejectsNonDigit` | src/lib.rs:249 | any character other than a digit, except a leading '+', makes `parse::<u16>` fail: a '-' anywhere, a space, a letter |
| `Text.ParseU16OfDecimal` | src/lib.rs:249 | `parse::<u16>` reads back every decimal below 65536, also after a '+' or a leading zero; it rejects larger numbers and a '-' in front of a decimal |
| `VmParser.CommentStart` | src/lib.rs:132-135 | `find("//")` gives the position of the first comment marker, or the line's length when there is none; no marker starts at any earlier position |
| `VmParser.CleanLine` | src/lib.rs:131-137 | a line cut at its comment and trimmed has no comment and no surrounding whitespace, and gains no line break |
| `VmParser.CleanLineOfClean` | src/lib.rs:131-137 | a line with no comment and no surrounding whitespace passes through unchanged |
| `VmParser.KeepNonEmpty` | src/lib.rs:137-138 | mapping the lines through a function and dropping the empty results keeps at most as many lines as given, none of them empty |
| `VmParser.NormaliseLines` | src/lib.rs:129-140 | the iterator chain on lines already split keeps at most as many lines as given, none of them empty |
| `VmParser.KeepNonEmptyAppend` | src/lib.rs:129-140 | mapping and filtering lines distributes over concatenation of the input |
| `VmParser.KeptPositions` | src/lib.rs:138 | the positions of the lines that survive the filter, in increasing order: exactly the lines whose cleaned form is not empty |
| `VmParser.KeepNonEmptyKeepsOrder` | src/lib.rs:129-140 | the j-th line kept is the cleaned form of the input line at the j-th kept position |
| `VmParser.KeepNonEmptyOfFixed` | src/lib.rs:129-140 | non-empty lines that cleaning leaves alone are all kept, in order and unchanged |
| `VmParser.NormaliseLinesAreClean` | src/lib.rs:129-140 | no more lines are kept than given; each one kept is clean; none gains a line break |
| `VmParser.Normalise` | src/lib.rs:122-143 | every line `Parser::create` stores is non-empty, comment-free, trimmed and free of line breaks |
| `VmParser.NormaliseLinesOfClean` | src/lib.rs:129-140 | clean lines pass through the normaliser unchanged |
| `VmParser.NormaliseLinesIdempotent` | src/lib.rs:129-140 | normalising twice gives what normalising once gives |
| `VmParser.NormaliseOfNormalisedText` | src/lib.rs:122-143 | writing the stored lines out as text and parsing that text again stores the same lines |
| `VmParser.NormaliseKeepsOrder` | src/lib.rs:122-143 | the j-th stored line is the cleaned j-th line of the text that does not clean to nothing |
| `VmParser.Keyword` | src/lib.rs:164-183 | a token has a command type exactly when it is one of the seventeen keywords; the type is arithmetic exactly for the nine operator names |
| `VmParser.KeywordOfMnemonic` | src/lib.rs:174-181 | each non-arithmetic command type has exactly one keyword; `if-goto` is not a keyword |
| `VmParser.CommandTypeOf` | src/lib.rs:163-189 | a line has a command type exactly when its first token is one of the seventeen keywords, and that type is arithmetic exactly for the nine operator names |
| `VmParser.Arg1Of` | src/lib.rs:199-233 | `arg1` is nothing exactly for `return` and unrecognised lines; it is the panic (a missing operand) exactly for a non-arithmetic, non-`return` command of fewer than two tokens; otherwise it is the first token of an arithmetic command, and the second token of any other |
| `VmParser.Arg2Of` | src/lib.rs:243-267 | `arg2` is nothing exactly when the type is not push, pop, function or call; for those it is the missing-operand panic exactly when there are fewer than three tokens, the parse panic exactly when the third does not parse as a u16, and otherwise the third token's value |
| `VmParser.DecodeAgreesWithAccessors` | src/lib.rs:154-268 | the definitional link between the decoder and the three accessor functions: a decoded command carries what `CommandTypeOf`, `Arg1Of` and `Arg2Of` each give, and a line decodes to nothing exactly when it has no command type |
| `VmParser.DecodeWellFormed` | src/lib.rs:192-268 | every command accepted has the operand shape of its type |
| `VmParser.DecodeIgnoresTrailingTokens` | src/lib.rs:199-265 | a well-formed command followed by any further tokens is read as that command |
| `VmParser.DecodeRender` | src/lib.rs:154-268 | every well-formed command is read back from its canonical text |
| `VmParser.DecodeTruncated` | src/lib.rs:202-264 | a command missing an operand its type needs is the `unwrap` panic on the missing token |
| `VmParser.DecodeBadIndex` | src/lib.rs:246-264 | push, pop, function or call whose third token is not a u16 is the `unwrap` panic on the parse |
| `VmParser.Parser.Create` | src/lib.rs:122-143 | the parser holds the normalised lines, its cursor on the first and an empty cache |
| `VmParser.Parser.HasMoreLines` | src/lib.rs:145-147 | true exactly when another line follows the one under the cursor |
| `VmParser.Parser.Advance` | src/lib.rs:149-152 | the cursor moves by one and the cache is cleared; the cursor lands on a line exactly when `has_more_lines` held before |
| `VmParser.Parser.GetCommandType` | src/lib.rs:154-190 | the command type of the first token at the cursor, none past the end or on an unknown keyword; the cache then holds it and stays consistent |
| `VmParser.Parser.Arg1` | src/lib.rs:192-234 | the operator name of an arithmetic command, the second token otherwise, nothing for `return`, an unknown line or past the end; a missing token is the panic |
| `VmParser.Parser.Arg2` | src/lib.rs:236-268 | the third token as a u16 for push, pop, function and call, nothing otherwise; a missing token or a failed parse is the panic |
| `Code.GenerateArithmetic` | src/lib.rs:313-336 | code is emitted exactly for `add`, and it ends with a line break |
| `Code.ArithmeticListing` | src/lib.rs:313-336 | the `add` code is seven Hack instructions, line by line; any other command emits no line |
| `Code.GeneratePushPop` | src/lib.rs:338-357 | code is emitted exactly for `push constant`, and it ends with a line break |
| `Code.PushPopListing` | src/lib.rs:338-357 | the `push constant` code is five Hack instructions; its first line `@n` parses back to the index; any other push or pop emits no line |
| `Writer.CodeWriter.constructor` | src/lib.rs:284-295 | a new writer holds its output path and no code |
| `Writer.CodeWriter.AddAssemblyCode` | src/lib.rs:303-307 | the code is appended to the buffer and the call always succeeds |
| `Writer.ListingsConcatenate` | src/lib.rs:303-307 | appending two listings made of whole lines gives the lines of the first followed by those of the second |
| `ParserTest.ProgramIsNormal` | src/lib.rs:367-372 | the test program is stored as its three lines, unchanged |
| `ParserTest.ProgramReports` | src/lib.rs:373-383 | the type, `arg1` and `arg2` the test expects on each of the three stored lines |
| `ParserTest.ReplayCommandTypeTest` | src/lib.rs:365-389 | every assertion of `test_command_type`: push constant 7, push constant 8, add, no more lines, and nothing past the end |

## Left out

- `Config::new` and `src/main.rs` read the command-line arguments, and `Parser::new` reads the input file. They are not modelled. `Parser.Create` takes the file contents as a string.
- `CodeWriter::new` only copies the output path out of a `Config`. The writer's constructor takes that path as a parameter.
- `CodeWriter::write_to_file` writes the buffer to the output file. It is not modelled.
- `run` is not modelled: its body is commented out, so it does nothing and returns `Ok(())`.
- Whitespace is ASCII only (space, tab, line feed, vertical tab, form feed, carriage return). Rust's `char::is_whitespace` also accepts the non-ASCII Unicode White_Space characters, such as U+0085 and U+00A0. Lines holding those are trimmed and split differently in Rust.
- `VmParser.Parser.HasMoreLines`, `VmParser.Parser.Advance`: `current_instruction` is a `usize` and `+ 1` would overflow at its maximum. The model's cursor is unbounded.
- `VmParser.Parser.Arg1`, `VmParser.Parser.Arg2`: a panic of `unwrap` becomes a returned `Err(Fault)`. The Rust methods return `Option` and abort on that path.
- The emitters do not compile as written. `match str` (line 315) and `match CommandType` (line 342) name types instead of the parameters, and the string match has no catch-all arm. The model matches on the parameters and returns the empty string for every case the source leaves empty or unmatched.
- What the emitted assembly does on the Hack machine is not modelled. Stack effects, labels, jumps and call/return belong to the translation the project has not written yet. The listings are checked against Hack instruction syntax only.
- Hack A-instructions hold at most 15-bit constants. `IsAInstruction` accepts any numeral, so `push constant n` with n above 32767 passes as an instruction.
- The conditional jump is the keyword `if` in the code, while the Nand2Tetris VM language calls it `if-goto`. The model follows the code, and `KeywordOfMnemonic` states that `if-goto` is unrecognised.
