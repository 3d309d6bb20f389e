# MSL compiler core, modelled in Dafny

MSL is a small language compiled into Minecraft function files. This project
models three parts of its compiler:

- The compile-time interpreter of `msl/ast.py`:
  - the `RTResult` error propagation;
  - the `Context` chain of variables and scores;
  - the command objects and their `toStr`;
  - the `interpret` method of every node.
- The source preprocessor `PreProcesser`, with `add_endings` (statement
  terminators) and `include` (textual inclusion).
  `compiler/preprocesser.py` is byte-for-byte the same file as
  `msl/preprocesser.py`, so one model serves both.
- The error report `BaseError.__str__` of `compiler/errors.py`.

Modules:

| module | file | what it holds |
|---|---|---|
| `Results` | results.dfy | `Option`, `Result` and the interpreter's error kinds (`RTResult`) |
| `Strings` | strings.dfy | joins, splits, strips, `str(int)`, ASCII lower-casing |
| `Lines` | lines.dfy | Python's `str.splitlines`, with and without line ends |
| `Values` | values.dfy | compile-time values and the Python operators applied to them |
| `Scopes` | scopes.dfy | `Context`: lookups along the parent chain, writes to the current context |
| `Commands` | commands.dfy | `MinecraftCommand`, `ExecuteCommand`, `MinecraftComment`, the `toStr` methods, group specifiers |
| `Comments` | comments.dfy | `CommentNode`: a `/* */` comment rendered as `#` lines |
| `Substitution` | substitution.dfy | `McCmdNode`: `$(name)` substitution, repeated up to `MAX_REC_LIMIT` passes |
| `Interpreter` | interpreter.dfy | `interpret` of every node; `for`/`while` bounded by fuel |
| `InterpreterFacts` | interpreter_facts.dfy | lemmas relating whole programs: blocks, groups, loops, functions |
| `Preprocessor` | preprocessor.dfy | `add_endings` and `include` |
| `Diagnostics` | diagnostics.dfy | `BaseError.__str__` |

How the source's behaviour is represented:

- A node's `interpret` either succeeds with a value or fails with an error.
  In the model it returns a `Result`.
- Python exceptions the interpreter does not catch become `Err` values:
  - `TypeError` from an unsupported operator;
  - `AttributeError`.
- `McCmdNode` returns an ordinary `RTResult` failure, not an exception, when
  substitution reaches `MAX_REC_LIMIT` passes: its error is the bare string
  "Max recursion error!" (msl/ast.py:375-376). The model gives it the error
  kind `MaxRecursion` of its own.
- A statement works on a `State`. The state holds the context and the
  function files written so far.
- The file system is a parameter:
  - `FuncNode` appends a `FuncFile` to the state instead of writing to disk;
  - `include` reads from a `map` from file name to contents.

## Model

The functions that carry out the source's operations have no contract of
their own; the lemmas in the table state what they compute:

- `Interpreter.Interpret` and `Interpreter.InterpretSimple` (`interpret` of
  each node): `InterpretKeeps`, `InterpretFuel`, `BlockOfOne`, `GroupRuns`,
  `GroupNesting`, `GroupLineByLine`, `ForInitFails`, `ForConditionFalse`,
  `ForRuns`, `CountingFor`, `AssignFresh`, `IncrementAt`, `ScoreDeclRuns`,
  `ScoreInitRuns`, `FuncWritesFile`, `FuncFileLines`, `NoShortCircuit` and
  `SayHiRuns` in `InterpreterFacts`, with `Interpreter.DeclareScore`,
  `AssignValue`, `StepVariable`, `ScoreOperation` and `SelfOperation` for the
  single statements and `Substitution.Substitute` for `McCmdNode`.
- `Interpreter.InterpretBlock` (a block of statements):
  `InterpreterFacts.BlockConcatenates`, `BlockOfOne` and `PlainBlockRuns`.
- `Interpreter.Loop`, `Interpreter.Iterate` and `Interpreter.Step` (`for` and
  `while`): `InterpreterFacts.LoopUnrolls`, `LoopConditionFails`, `LoopStops`,
  `LoopFuel`, `CountLoop` and `CountingFor`.
- `Interpreter.Eval` (expressions): `Interpreter.Lookup`, `EvalOrder`,
  `Values.Apply`, `Values.ApplyUnary` and the `Values` comparison lemmas.
- `Interpreter.Run` (a whole program): `InterpreterFacts.RunKeeps` and `RunFuel`.
- `Preprocessor.Include`, `Preprocessor.Splice` and `Preprocessor.Read`
  (`include`): `Preprocessor.IncludeAt`, `IncludeIdentity` and
  `SpliceDirective`, with `Lines.ConcatSplitLines`.
- `Comments.Render` (`CommentNode`): `Comments.Body`, `Lead`, `CommentLines`
  and `RenderLines`.
- `Commands.Serialize` (`toStr` of a list of commands): `Commands.SerializeSplits`
  and `InterpreterFacts.FuncFileLines`.
- `Diagnostics.Str` (`BaseError.__str__`): `Diagnostics.StrLines`,
  `StrFailsIff`, `CaretAfterEnd`, `CaretUnderColumn` and `ZeroLineEchoesLast`.

| member | source | states |
|---|---|---|
| Scopes.GetVariable | msl/ast.py:45-59 | `getVariable` finds a value exactly when `isVariable` holds for the name |
| Scopes.GetScore | msl/ast.py:61-75 | `getScore` finds a score exactly when `isScore` holds for the name |
| Scopes.VariableLookupIsNearest | msl/ast.py:45-59 | the parent-chain walk equals a lookup in the merged map where inner contexts override outer ones: the nearest binding wins, and a name bound nowhere is unknown |
| Scopes.ScoreLookupIsNearest | msl/ast.py:61-75 | the same nearest-binding rule for scores |
| Scopes.SetVariableFrame | msl/ast.py:425 | a written variable reads back with the new value; every other variable and every score reads as before |
| Scopes.AddScoreFrame | msl/ast.py:257 | a recorded score reads back; every other score and every variable reads as before |
| Values.Apply | msl/ast.py:772-857 | `and`/`or` return one of their operands, with Python truthiness; `==`/`!=` give a bool; on numbers (bools counting as 0 and 1) `+`, `-` and `*` give exactly the sum, difference and product; `+` concatenates two strings; mixing a string with a non-string under `+` is an error; a string times a number, in either order, is the string repeated that many times (empty for a count of zero or less), and a string times a string is an error; `/` is never a modelled value |
| Values.ComparisonDefined | msl/ast.py:817-834 | `<`, `>`, `<=`, `>=` are defined exactly between two numbers or two strings, give a bool, and compare numbers by value; any other pair is a type error |
| Values.ComparisonMirror | msl/ast.py:817-834 | `a > b` equals `b < a` and `a >= b` equals `b <= a`, errors included |
| Values.LessEqIsLessOrEqual | msl/ast.py:817-829 | `a <= b` is defined exactly when `a < b` is, and is `a < b or a == b` |
| Values.ComparisonTrichotomy | msl/ast.py:817-844 | two comparable values are ordered one way, equal, or ordered the other way, and exactly one of these holds |
| Values.ArithmeticLaws | msl/ast.py:797-814 | on numbers `a - b` is `a + (-b)`, and `+` and `*` do not depend on operand order |
| Values.ApplyUnary | msl/ast.py:860-897 | `not` negates truthiness; unary `+`/`-` succeed exactly on numbers (ints and bools), giving the number and its negation |
| Values.NegationIsSubtraction | msl/ast.py:872-882 | unary `-` is subtraction from zero, and applying it twice gives back the number as unary `+` does |
| Commands.Wrap | msl/ast.py:315-333 | a group emits one command per body command, in order: commands become `<spec> run <cmd>`, execute commands become `<spec> <rest>`, comments pass through |
| Commands.WrapNested | msl/ast.py:315-333 | a group inside a group emits the same commands as one group whose specifier joins both |
| Commands.GroupLines | msl/ast.py:94-107 | every non-comment line a group emits carries exactly one `execute ` before the specifier |
| Commands.SpecAppend | msl/ast.py:341-350 | appending a clause adds a space and the clause's text to the specifier |
| Commands.SpecConcat | msl/ast.py:341-355 | the specifier of two clause lists is the two specifiers joined by a space |
| Comments.Body | msl/ast.py:165-166 | the stripped comment splits into at least one line, none holding a line feed, and joining the lines with line feeds gives back the stripped text |
| Comments.Lead | msl/ast.py:168-172 | a first line starting with `>` is lower-cased letter by letter, keeping its length and its `>`; any other first line gets a leading space |
| Comments.CommentLines | msl/ast.py:161-176 | one `#` line per body line: the first is `#` plus the lead, the rest are `# ` plus the line |
| Comments.RenderLines | msl/ast.py:161-176 | the rendered comment, split at line feeds, is exactly its `#` lines |
| Substitution.MatchAtIff | msl/ast.py:13 | the scanner finds `$(id)` at the front of a text exactly when the text starts with it and `id` is an identifier of 1 to 32 characters |
| Substitution.Pass | msl/ast.py:367-371 | a pass reports a match exactly when the text holds a placeholder; a pass without a match leaves the text unchanged |
| Substitution.PassKeepsPlainPrefix | msl/ast.py:371 | text before the first `$` is copied unchanged by a pass |
| Substitution.Substitute | msl/ast.py:363-380 | a successful substitution leaves no placeholder; its only failure is the recursion limit; a command without placeholders comes back unchanged |
| Substitution.SubstituteFailsIff | msl/ast.py:367-376 | substitution fails exactly when each of the first nine passes still finds a placeholder |
| Substitution.SubstituteValue | msl/ast.py:367-380 | on success the result is the text after the first pass count whose result has no placeholder, fewer than nine passes |
| Substitution.OnePassSettles | msl/ast.py:367-380 | when one pass removes every placeholder, its output is the command |
| Substitution.SelfReferenceLoops | msl/ast.py:367-376 | any variable whose value is its own placeholder makes substitution end in the recursion-limit error |
| Substitution.SayPass | msl/ast.py:371 | one pass over text without `$` followed by one placeholder replaces just the placeholder |
| Substitution.SubstituteAsWritten | msl/ast.py:382-393 | as written, the first placeholder raises `AttributeError` on `get_var`; a text without placeholders comes back unchanged |
| Substitution.GetVarCrashes | msl/ast.py:388 | `say $(i)` with `i` bound to 3 fails as written but gives `say 3` once the lookup uses `getVariable` |
| Substitution.CrashesOn | msl/ast.py:363-393 | every command of plain text and one placeholder of a bound variable fails as written; with `getVariable` it becomes the text followed by the value |
| Interpreter.Lookup | msl/ast.py:438-455 | a variable's value first, else a score's own name, else a `NameError` naming the missing name |
| Interpreter.EvalOrder | msl/ast.py:781-794 | a binary node evaluates both operands, left first; the first error wins and nothing short-circuits |
| Interpreter.DeclareScore | msl/ast.py:254-267 | redeclaring a score anywhere on the chain is a `NameError`; otherwise the score is recorded with its objective and player, and nothing else changes |
| Interpreter.AssignValue | msl/ast.py:407-427 | the score test comes first: a string names a source score (`operation =`), another value is `set`; any other name becomes a variable, and nothing else changes |
| Interpreter.StepVariable | msl/ast.py:465-520 | a numeric variable moves by exactly one; a non-numeric variable is a type error; a score gets `add`/`remove ... 1`; an unknown name is a `NameError` |
| Interpreter.ScoreOperation | msl/ast.py:532-611 | succeeds exactly when both names are scores, the target being checked first; the command applies `<`, `>` or `><` to the two holders |
| Interpreter.SelfOperation | msl/ast.py:622-770 | a variable is combined with the operand by the Python operator; on a score a string operand names another score, a constant is added or removed, and `*=`/`/=` of a constant is a `ValueError` |
| InterpreterFacts.InterpretKeeps | msl/ast.py:142-1023 | the files written form a write log: a statement that succeeds only appends to it, a function adding its own file at the end, and keeps the context's parent |
| InterpreterFacts.RunKeeps | msl/ast.py:149-151 | running a program only appends to the write log and keeps the context's parent |
| InterpreterFacts.InterpretFuel | msl/ast.py:944-1023 | fuel only bounds loops: a statement that finishes, or fails for a reason other than fuel, gives the same result with more fuel |
| InterpreterFacts.LoopFuel | msl/ast.py:958-981 | a loop that finishes, or fails for a reason other than fuel, gives the same result with more fuel |
| InterpreterFacts.RunFuel | msl/ast.py:149-151 | a program that finishes gives the same result with more fuel |
| InterpreterFacts.BlockConcatenates | msl/ast.py:195-212 | a block of two parts runs the first part, then the second from the state it left, concatenating their commands; an error stops the block |
| InterpreterFacts.BlockOfOne | msl/ast.py:200-212 | a one-statement block fails with its statement's error, and otherwise keeps the commands the statement emits and drops plain values |
| InterpreterFacts.GroupNesting | msl/ast.py:305-355 | a group holding only a group gives the same result as one group with both clause lists |
| InterpreterFacts.GroupLineByLine | msl/ast.py:315-333 | the group's i-th output line is the body's i-th command wrapped in the specifier |
| InterpreterFacts.ForInitFails | msl/ast.py:947-950 | a failing initialiser is the `for` statement's error |
| InterpreterFacts.ForConditionFalse | msl/ast.py:952-958 | a condition false after the initialiser gives no commands and keeps the initialiser's state |
| InterpreterFacts.ForRuns | msl/ast.py:944-981 | `for` is its initialiser followed by the loop, with the loop's state and commands |
| InterpreterFacts.LoopUnrolls | msl/ast.py:958-978 | one pass with a true condition: an error in the body or the step is the loop's error; otherwise the loop is the body's commands followed by the loop from the state the step left, with one unit of fuel less |
| InterpreterFacts.LoopConditionFails | msl/ast.py:952-955 | an error evaluating the condition is the loop's error |
| InterpreterFacts.CountLoop | msl/ast.py:958-981 | a loop `i < n` with `i++` entered at `i == k <= n`, whose body emits fixed text, emits that text `n - k` times and ends with `i == n` |
| InterpreterFacts.CountingFor | msl/ast.py:944-981 | `for (i = 0; i < n; i++)` over a fresh `i` and a body with fixed text emits that text `n` times (none for negative `n`) and leaves `i` at `n` (or 0) |
| InterpreterFacts.LoopStops | msl/ast.py:996-1023 | a false condition ends the loop with no commands and the state unchanged |
| InterpreterFacts.PlainBlockRuns | msl/ast.py:195-212 | a block of comments and placeholder-free commands emits exactly those lines, in order, with the state unchanged |
| InterpreterFacts.SetVariableTwice | msl/ast.py:425 | the second assignment of a variable overrides the first |
| InterpreterFacts.ScoreDeclRuns | msl/ast.py:254-267 | a score declaration of a fresh name records the objective and player in the current context, keeps the files and emits nothing; a name already a score gives the redeclare `NameError` |
| InterpreterFacts.ScoreInitRuns | msl/ast.py:278-293 | a score declaration with a value declares first (a redeclared name gives that `NameError`), then evaluates the value in the context holding the new score; an evaluation error is the statement's error, otherwise it emits exactly `scoreboard players set <player> <objective> <value>` |
| InterpreterFacts.AssignFresh | msl/ast.py:407-427 | assigning an integer to a name that is no score binds the variable and emits nothing |
| InterpreterFacts.IncrementAt | msl/ast.py:465-473 | incrementing a variable holding `j` binds it to `j + 1` |
| InterpreterFacts.FuncWritesFile | msl/ast.py:227-241 | a function appends exactly one entry to the write log, named by its unquoted name and holding its body's commands joined by line feeds, and emits nothing |
| InterpreterFacts.FuncFileLines | msl/ast.py:227-239 | when no command spans two lines, the written file split at line feeds gives back the body's commands, one per line, in order |
| Commands.SerializeSplits | msl/ast.py:89-121 | `toStr` of commands without line feeds splits back into one line per command; no commands give the empty text |
| InterpreterFacts.NoShortCircuit | msl/ast.py:781-794 | `false and x` and `true or x` still fail when `x` is undefined |
| InterpreterFacts.SayHiRuns | msl/ast.py:305-355 | `as("@e[distance=..2]"), at("@s") { say hi }` compiles to `execute as @e[distance=..2] at @s run say hi` |
| Preprocessor.EndLines | msl/preprocesser.py:21-41 | each line is stripped, and outside comments gets a `;` by the keyword and terminator rules |
| Preprocessor.AddEndings | msl/preprocesser.py:18-43 | the output is the ended lines joined by line feeds with a final line feed, and read back with `splitlines()` gives one ended line per source line |
| Preprocessor.EndLine | msl/preprocesser.py:24-39 | one line: inside or opening a comment it is only stripped, otherwise it is stripped and terminated; the flag afterwards is set exactly when the line is in a comment that it does not close |
| Preprocessor.OpenStep | msl/preprocesser.py:28-39 | the comment flag after a line is set exactly when the line opens a comment or the flag was already set, and the line does not close it |
| Preprocessor.EndedShape | msl/preprocesser.py:24-36 | an ended line is the stripped line, with or without one added `;` |
| Preprocessor.KeywordEnded | msl/preprocesser.py:31-33 | outside comments, a non-empty line starting with a Minecraft keyword always gets a `;`, even when it already ends in one |
| Preprocessor.PlainEnded | msl/preprocesser.py:35-36 | outside comments, a line without a keyword stays unchanged exactly when it is empty, ends in one of `{(},;`, or starts with `//` |
| Preprocessor.CommentRegion | msl/preprocesser.py:28-39 | every line from a `/*` line up to the first `*/` line is left unterminated, and after it the comment state depends only on whether the next line opens a comment |
| Preprocessor.IncludeAt | msl/preprocesser.py:55 | a directive found at the front of a text is `include <name>` with a non-empty name of word characters and dots |
| Preprocessor.IncludeIdentity | msl/preprocesser.py:54-64 | a source with no line starting with `include` comes back unchanged |
| Preprocessor.SpliceDirective | msl/preprocesser.py:45-62 | a directive is replaced by the named file's contents, or by nothing when the file is missing, and the rest of the line is processed after it |
| Lines.SplitLinesOfJoin | msl/preprocesser.py:19-43 | lines without line breaks, joined by line feeds with a final line feed, split back into the same lines |
| Strings.JoinSplit | msl/ast.py:165-174 | joining the parts of `split("\n")` with line feeds gives back the text |
| Strings.SplitJoin | msl/ast.py:166 | splitting a line-feed join of parts without line feeds gives back the parts |
| Strings.StripLeft | msl/preprocesser.py:25 | `lstrip` removes a prefix made only of the given characters, and what is left does not start with one |
| Strings.StripRight | msl/preprocesser.py:24 | `rstrip` removes a suffix made only of the given characters, and what is left does not end with one |
| Strings.AsciiLower | msl/ast.py:169 | `lower()` keeps the length and lower-cases each letter in place |
| Strings.LexTrichotomy | msl/ast.py:817-834 | Python's string order is a strict total order: exactly one of `a < b`, `a == b`, `b < a` |
| Strings.NatToStringRoundTrip | msl/ast.py:391 | reading the decimal text `str(n)` gives `n` back |
| Lines.ConcatSplitLines | msl/preprocesser.py:57-64 | `"".join(s.splitlines(True))` is `s` |
| Lines.SplitLinesEmpty | msl/preprocesser.py:19 | `splitlines()` gives no lines exactly for the empty text |
| Preprocessor.TerminateShape | msl/preprocesser.py:31-36 | terminating a line adds at most one `;` and no line break |
| InterpreterFacts.GroupRuns | msl/ast.py:305-355 | a group whose body runs keeps the body's state and emits the body's commands under its specifier |
| Diagnostics.StrLines | compiler/errors.py:17-33 | the report is six lines: empty, banner, file and line, echoed source line, caret, class and message |
| Diagnostics.StrFailsIff | compiler/errors.py:20-29 | the report raises `IndexError` exactly when there is no line to echo: no source lines without a position, or a line number outside Python's index range |
| Diagnostics.CaretAfterEnd | compiler/errors.py:20-30 | without a position the report names the last line and puts the caret just past its end |
| Diagnostics.CaretUnderColumn | compiler/errors.py:24-30 | with a position inside the source the caret sits under the position's column of the echoed line |
| Diagnostics.ZeroLineEchoesLast | compiler/errors.py:24-29 | a position on line 0 reports line 0 but echoes the last source line |

## Left out

- Floating point: `FloatNode` values and the float results of `/` are not modelled.
- Values.Apply: division of two numbers returns `Unsupported("/")` instead of a float or `ZeroDivisionError`, because floats are left out.
- Interpreter.Interpret: `for` and `while` loops are bounded by a fuel parameter. `OutOfFuel` stands for a loop that runs longer than the fuel allows, which the source would keep running.
- Interpreter.Interpret: the file path of `FuncNode` (the destination file's directory, `stem` replaced by the function name) is not modelled. A written file is recorded by its name and contents.
- Interpreter.Interpret: a same-named function overwrites the earlier file, because `open(dstPath, "w")` truncates it; the write log keeps both entries, the later one last.
- Interpreter.Interpret: `McCmdNode` is modelled with the corrected lookup through `getVariable`. The `get_var` call as written is modelled separately by `Substitution.SubstituteAsWritten` (see Findings).
- Interpreter.InterpretSimple: the parser only builds a `ScoreInitNode` around a `ScoreDeclNode`; for any other declaration statement the model reads the score name as empty.
- Interpreter.Interpret: `WRITE_COMMENTS` is always true in the source, so the branch where `CommentNode` returns `NULL` is left out.
- The `print("Big Error!")` branch of `GroupNode` is left out: a block body always yields a command list.
- `raiseError`'s `print` and `sys.exit` are left out: they are I/O.
- The lexer and the parser are not part of this model. Statements and expressions are given as syntax trees.
- `rep()` of the nodes is left out: it is debugging output.
- Preprocessor.IncludeAt: `\w` is read as the ASCII word characters. Python's Unicode word characters are left out.
- Preprocessor.Read: the path `Path(inFile).parent / name` is replaced by a lookup in a map of file contents.
- Preprocessor.KeywordEnded: requires a non-empty stripped line. The source checks the length first, so an empty line never reaches the keyword test.
- Comments.Lead: `str.lower()` is applied to ASCII letters only.

## Findings

| source | as written | input that shows it | evidently intended | confidence | as-written member | corrected member |
|---|---|---|---|---|---|---|
| msl/ast.py:388 | `McCmdNode.replace` calls `context.get_var`, which `Context` does not define | the command `say $(i)` with `i` bound to 3 raises `AttributeError` | `context.getVariable(var)`, giving `say 3` | not executed | Substitution.SubstituteAsWritten | Substitution.Substitute |
