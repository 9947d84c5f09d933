# Nand2Tetris toolchain: two VM translators and the Hack assembler

This project models, and proves properties of, three small C++ programs
from a Nand2Tetris course repository:

- **`vm_translator.cpp`, the full VM translator.** It reads every `.vm`
  file of a directory and writes one `.asm` file.
  - A `Parser` cleans each line and keeps the non-blank ones. It then
    classifies each command by its keyword prefix and extracts `arg1`
    and `arg2`.
  - A `CodeWriter` writes one fixed Hack assembly template per command,
    starting with a bootstrap.
  - The writer keeps four pieces of state from command to command and
    from file to file: the module name `filename`, the current function
    `functionName`, and the counters `labelCnt` and `callCnt`.
- **`07/vm_translator.cpp`, the early single-file translator.** It uses
  the same parser and writes only arithmetic, push and pop.
  - Its pop keeps the target in a symbol `address`.
  - Its static symbols have no dot.
  - Its module name comes from the output path.
- **`06/assembler.cpp`, the Hack assembler.** It cleans lines and runs
  two passes.
  - The first pass enters label addresses into a symbol table.
  - The second pass resolves A-command operands, allocating variables
    from address 16, and encodes C-commands through the `Code` tables.
  - Each word is printed as sixteen binary digits.

The modules follow the programs:

| module | file | what it holds |
|---|---|---|
| `Text` | text.dfy | characters, decimal printing (`NatStr`), `stoi`, the `find` family |
| `Hack` | hack.dfy | the instructions the translators write, their printed lines, an interpreter |
| `VmParser` | vm_parser.dfy | the Parser shared by both translators |
| `VmCode` | vm_code.dfy | each command's instruction template |
| `VmText` | vm_text.dfy | proofs that each template prints as the lines the source writes |
| `VmStackEffects` | vm_stack_effects.dfy | each template's effect on the machine, as the source's comments describe it |
| `VmTranslator` | vm_translator.dfy | the full translator's `CodeWriter` class |
| `VmProgram` | vm_program.dfy | the full translator's `main` |
| `EarlyTranslator` | early_translator.dfy | the early translator |
| `AsmParser` | asm_parser.dfy | the assembler's Parser |
| `AsmCode` | asm_code.dfy | the `Code` tables and the ALU meaning of each comp code |
| `AsmOfEmitted` | asm_of_emitted.dfy | which computations the translators write the assembler accepts |
| `AsmSymbols` | asm_symbols.dfy | the `SymbolTable` class |
| `AsmEncode` | asm_encode.dfy | the word layout and the binary printing |
| `AsmMain` | asm_main.dfy | the assembler's `main` and its two passes |

How the model is built:

- **State-changing code is imperative Dafny.**
  - Both `Parser` classes and both `CodeWriter` classes are classes. Their
    output stream is a `seq<string>` field that the write methods append
    to.
  - The assembler's `SymbolTable` is a class over a `map`.
  - The loops of `main`, of the parsers' constructors and of
    `writeCall`/`writeReturn` are `while` loops with invariants.
- **Each method is proved against a function of its inputs.**
  - Every write method ensures it appended exactly
    `Lines(template)`, where the template is a `VmCode` function of the
    writer's state.
  - Every driver ensures it wrote exactly what a `VmProgram`,
    `EarlyTranslator` or `AsmMain` function of the input lines gives.
- **The properties are proved about those functions.**
  - Parsing round-trips.
  - Label uniqueness: the TRUEn, ENDn and RETURNk of the whole output,
    the bootstrap's RETURN0 included, are declared in it and pairwise
    different, because the counters carry on from file to file.
  - The segment addresses.
  - The label and variable allocation of the assembler.
  - The word layout.
- **The Hack instructions have an interpreter** (`Hack.Exec`).
  - Words are 16-bit and wrap around.
  - RAM is a map.
  - A taken jump goes to the address A held before the instruction, as on
    the Hack CPU, which loads its program counter from A in the same cycle
    that writes the destinations.
  - A symbol's address comes from a given environment, which stands for
    the assembler's resolution.
  - The template comments in the source ("write to stack", "increment
    SP", the call frame) are stated and proved on it as stack effects.

## Model

| member | source | states |
|---|---|---|
| Text.NatStr | vm_translator.cpp:173 | a number prints as a non-empty run of decimal digits with no leading zero |
| Text.NatStrInjective | vm_translator.cpp:173-190 | distinct numbers print differently, so numbered labels never collide |
| Text.Stoi | vm_translator.cpp:100-105 | `stoi` yields a value exactly when the operand text starts with a digit |
| Text.StoiNatStr | vm_translator.cpp:100-105 | reading a printed number back with `stoi` gives the number |
| Text.FirstIndex | vm_translator.cpp:90 | `find_first_of` returns the first matching position, or none when no character matches |
| Text.LastIndex | vm_translator.cpp:92 | `find_last_of` returns the last matching position, or none when no character matches |
| Text.FindComment | vm_translator.cpp:25 | `find("//")` returns the first place a comment marker starts, or none when there is no marker |
| Text.CutComment | vm_translator.cpp:25-28 | the kept text is a prefix without "//", and the cut is exactly at the first marker |
| Text.NonSpace | 06/assembler.cpp:25 | removing every whitespace character leaves no whitespace |
| VmParser.CleanLine | vm_translator.cpp:23-44 | a kept line is a clean command line: non-empty, no "//", no leading or trailing blank, no two adjacent blanks; cleaning deletes only the comment and whitespace; a line is dropped exactly when nothing but whitespace precedes its comment; the result is `Unique` (the `std::unique` rule) of `Trim` of the text before the comment, or no line when that is empty |
| VmParser.TrimIsSpan | vm_translator.cpp:31-34 | the text from the first to the last non-blank character is the line with its blanks at both ends trimmed |
| VmParser.SqueezeIsUnique | vm_translator.cpp:37-39 | squeezing drops exactly the characters that are whitespace and follow whitespace, which is what `std::unique` does with the both-whitespace predicate |
| VmParser.CleanLineOfClean | vm_translator.cpp:23-44 | cleaning a stored command line changes nothing, so cleaning is idempotent |
| VmParser.CleanAllClean | vm_translator.cpp:23-44 | every stored command is a clean command line |
| VmParser.CleanAllAppend | vm_translator.cpp:23-44 | commands keep the order of their source lines |
| VmParser.CleanAllStep | vm_translator.cpp:41-43 | one more line adds its cleaned command, if any, after those before it |
| VmParser.ReadCommands | vm_translator.cpp:23-44 | the constructor's loop stores exactly the cleaned non-blank lines, in order |
| VmParser.Parser.constructor | vm_translator.cpp:18-47 | the stored commands are the cleaned lines and the index starts at 0 |
| VmParser.Parser.Advance | vm_translator.cpp:53-56 | the current command becomes the one at the index, and the index moves on by one |
| VmParser.Classify | vm_translator.cpp:58-84 | the type is the one whose keyword begins the line, and arithmetic exactly when no keyword does; no keyword is a prefix of another, so the order of the tests does not matter |
| VmParser.KeywordsPrefixFree | vm_translator.cpp:58-84 | at most one of the eight keywords begins a line |
| VmParser.Operand1 | vm_translator.cpp:86-98 | an arithmetic command, or a line without a separator, is its own `arg1`; otherwise the line splits into a separator-free first word, a separator, `arg1` and, for push, pop, function and call with a second separator, the rest from the last separator on |
| VmParser.Arg1 | vm_translator.cpp:86-98 | `arg1` is a run of consecutive characters of the line, and the whole line for an arithmetic command |
| VmParser.Arg2 | vm_translator.cpp:100-105 | the number is read from the separator-free last word (the whole line when there is no separator), and exists exactly when that word begins with a digit |
| VmParser.Arg2OfNumber | vm_translator.cpp:100-105 | a number written as the last word, or as the whole line, is read back by `arg2` |
| VmParser.TwoOperandDecode | vm_translator.cpp:58-105 | `kw a n` for push, pop, function or call is read as that type with operand a and number n |
| VmParser.ClassifyKeyword | vm_translator.cpp:58-84 | each keyword, followed by any text, is classified as its own command type, despite the prefixes being tried in order |
| VmParser.TwoOperandArgs | vm_translator.cpp:86-105 | for `kw a n`, `arg1` is the text between the blanks and `arg2` is n |
| VmParser.DecodeAs | vm_translator.cpp:86-105 | the command read from a line has the line's type; nothing is read exactly when a two-operand command has no number |
| VmParser.FormatRoundTrip | vm_translator.cpp:23-105 | a well-formed command, written in VM syntax, is kept as it stands by cleaning, and the dispatch reads the same command back |
| VmParser.FormatIsClean | vm_translator.cpp:23-44 | up to three tokens joined by single spaces form a stored command line |
| VmCode.BaseName | vm_translator.cpp:126-128 | the base name is a suffix of the path without '/', preceded by '/' unless it is the whole path |
| VmCode.BaseNameUnique | vm_translator.cpp:126-128 | that suffix is the only one with these properties |
| VmCode.ModuleName | vm_translator.cpp:125-130 | the module name followed by the last three characters of the base name is the base name; a base name shorter than three is kept whole |
| VmCode.EndsWithIsSuffix | vm_translator.cpp:383-386 | `ends_with` holds exactly when the value is some text followed by the ending |
| VmCode.ModuleNameOfVmFile | vm_translator.cpp:125-130 | for a path ending in ".vm" (`ends_with`, line 383-386), the module name plus ".vm" is the base name |
| VmCode.ScopedInjective | vm_translator.cpp:233-248 | `fn$label` determines the function and the label when the function name has no '$' |
| VmCode.StaticFullInjective | vm_translator.cpp:363-364 | distinct (module, index) pairs get distinct static symbols when module names have no '.' |
| VmCode.StaticEarlyInjective | 07/vm_translator.cpp:236-238 | within one module, distinct indices get distinct static symbols |
| VmCode.SaveAllAppend | vm_translator.cpp:259-267 | saving a list of registers is saving its parts in turn |
| VmCode.RestoreAllAppend | vm_translator.cpp:309-316 | restoring a list of registers is restoring its parts in turn |
| VmText.InitHeadText | vm_translator.cpp:133-136 | the bootstrap head prints as `@256`, `D=A`, `@SP`, `M=D` |
| VmText.NotText | vm_translator.cpp:144-148 | `not` prints as the three lines of the source |
| VmText.NegText | vm_translator.cpp:149-153 | `neg` prints as the three lines of the source |
| VmText.OperandsFullText | vm_translator.cpp:157-161 | the full translator's operand fetch prints as its five lines |
| VmText.OperandsEarlyText | 07/vm_translator.cpp:142-147 | the early translator's operand fetch prints as its six lines |
| VmText.BinaryText | vm_translator.cpp:163-170 | add, sub, or and and print `M=M+D`, `M=M-D`, `M=M|D` and `M=M&D` |
| VmText.CompareTestText | vm_translator.cpp:172-180 | the comparison test prints `D=M-D`, `@TRUEn` and `JEQ` for eq, `JGT` for gt and `JLT` for anything else |
| VmText.FalseBranchText | vm_translator.cpp:181-185 | the false branch prints as its five lines, ending in the jump to ENDn |
| VmText.TrueBranchText | vm_translator.cpp:186-190 | the true branch prints `(TRUEn)`, the write of -1, and `(ENDn)` |
| VmText.ArgumentAddressText | vm_translator.cpp:353-357 | `argument i` prints `@i`, `D=A`, `@ARG`, `A=D+M` |
| VmText.LocalAddressText | vm_translator.cpp:358-362 | `local i` prints `@i`, `D=A`, `@LCL`, `A=D+M` |
| VmText.StaticFullText | vm_translator.cpp:363-364 | `static i` prints `@filename.i` |
| VmText.ThisAddressText | vm_translator.cpp:365-369 | `this i` prints `@i`, `D=A`, `@THIS`, `A=D+M` |
| VmText.ThatAddressText | vm_translator.cpp:370-374 | `that i` prints `@i`, `D=A`, `@THAT`, `A=D+M` |
| VmText.PointerText | vm_translator.cpp:375-376 | `pointer i` prints `@R(3+i)` |
| VmText.TempText | vm_translator.cpp:377-378 | `temp i` prints `@R(5+i)` |
| VmText.OtherAddressText | vm_translator.cpp:352-380 | any other segment, constant among them, gets no address lines |
| VmText.StaticEarlyText | 07/vm_translator.cpp:236-238 | the early `static i` prints `@filenamei`, with no separator |
| VmText.ConstantReadText | vm_translator.cpp:198-200 | `push constant i` reads with `@i`, `D=A` |
| VmText.ReadText | vm_translator.cpp:201-204 | push from a segment reads with `D=M` after the address lines |
| VmText.PushTailText | vm_translator.cpp:206-213 | the stack write and the SP increment print as their five lines |
| VmText.PopSaveFullText | vm_translator.cpp:216-219 | pop saves the target with `D=A`, `@R13`, `M=D` |
| VmText.PopLoadFullText | vm_translator.cpp:222-224 | the full pop reads the top with `@SP`, `AM=M-1`, `D=M` |
| VmText.PopStoreFullText | vm_translator.cpp:227-229 | pop stores with `@R13`, `A=M`, `M=D` |
| VmText.PopSaveEarlyText | 07/vm_translator.cpp:202-205 | the early pop saves the target in `@address` |
| VmText.PopLoadEarlyText | 07/vm_translator.cpp:208-211 | the early pop reads the top with `@SP`, `M=M-1`, `A=M`, `D=M` |
| VmText.PopStoreEarlyText | 07/vm_translator.cpp:214-216 | the early pop stores through `@address` |
| VmText.LabelText | vm_translator.cpp:233-235 | `label l` prints `(fn$l)` |
| VmText.GotoText | vm_translator.cpp:237-240 | `goto l` prints `@fn$l`, `0;JMP` |
| VmText.IfText | vm_translator.cpp:242-248 | `if-goto l` pops and prints `@fn$l`, `D;JNE` |
| VmText.CallHeadText | vm_translator.cpp:251-257 | the return address push prints with `@RETURNk` |
| VmText.SaveText | vm_translator.cpp:260-267 | one frame register is pushed with its six lines |
| VmText.ArgText | vm_translator.cpp:268-274 | `@(n+5)`, `D=A`, `@SP`, `D=M-D`, `@ARG`, `M=D` |
| VmText.LclText | vm_translator.cpp:275-279 | `@SP`, `D=M`, `@LCL`, `M=D` |
| VmText.JumpToText | vm_translator.cpp:280-282 | `@f`, `0;JMP` |
| VmText.ReturnDeclareText | vm_translator.cpp:283-284 | `(RETURNk)` |
| VmText.SaveReturnText | vm_translator.cpp:289-295 | the save of RAM[LCL-5] into R13 prints as its seven lines |
| VmText.ResultText | vm_translator.cpp:297-302 | the move of the result to RAM[ARG] prints as its six lines |
| VmText.SpText | vm_translator.cpp:304-307 | `@ARG`, `D=M+1`, `@SP`, `M=D` |
| VmText.RestoreText | vm_translator.cpp:310-316 | one register is restored with `@LCL`, `AM=M-1`, `D=M`, `@reg`, `M=D` |
| VmText.ReturnJumpText | vm_translator.cpp:318-319 | `@R13`, `A=M;JMP` |
| VmText.FunctionEntryText | vm_translator.cpp:323-327 | `(f)`, `@R13`, `M=0` |
| VmText.LoopTestText | vm_translator.cpp:328-334 | the loop test prints `(f-INITLOOP)` and the exit to `f-INITLOOP-END` |
| VmText.LoopPushText | vm_translator.cpp:335-339 | the push of 0 prints as its five lines |
| VmText.LoopNextText | vm_translator.cpp:340-343 | the counter increment and the jump back print as their four lines |
| VmText.LoopEndText | vm_translator.cpp:344 | `(f-INITLOOP-END)` |
| VmTranslator.OutputPath | vm_translator.cpp:118-123 | the output file is inside the directory and ends in ".asm" |
| VmTranslator.CodeWriter.constructor | vm_translator.cpp:109-123 | the stream is empty, the names are empty and both counters are 0 |
| VmTranslator.CodeWriter.SetFileName | vm_translator.cpp:125-130 | the module name is the base name minus its last three characters |
| VmTranslator.CodeWriter.WriteInit | vm_translator.cpp:132-140 | appends SP := 256 and the code of `call Sys.init 0`, and `callCnt` moves on by one |
| VmTranslator.CodeWriter.WriteArithmetic | vm_translator.cpp:142-192 | appends the arithmetic template numbered by the old `labelCnt`; `labelCnt` moves on by one exactly for a comparison |
| VmTranslator.CodeWriter.WritePushPop | vm_translator.cpp:195-231 | appends the push or pop template of the segment and index, and changes no other field |
| VmTranslator.CodeWriter.GetAddress | vm_translator.cpp:352-380 | appends the address code of the segment and index |
| VmTranslator.CodeWriter.WriteLabel | vm_translator.cpp:233-235 | appends the declaration of `functionName$label` |
| VmTranslator.CodeWriter.WriteGoto | vm_translator.cpp:237-240 | appends the jump to `functionName$label` |
| VmTranslator.CodeWriter.WriteIf | vm_translator.cpp:242-248 | appends the pop and conditional jump to `functionName$label` |
| VmTranslator.CodeWriter.WriteCall | vm_translator.cpp:250-286 | appends the call template with RETURNk for the old `callCnt`, which moves on by one; `functionName` is untouched |
| VmTranslator.CodeWriter.EmitSaveAll | vm_translator.cpp:259-267 | the `for` loop pushes each register of the list in turn |
| VmTranslator.CodeWriter.WriteReturn | vm_translator.cpp:288-320 | appends the return template |
| VmTranslator.CodeWriter.EmitRestoreAll | vm_translator.cpp:309-316 | the `for` loop restores each register of the list in turn |
| VmTranslator.CodeWriter.WriteFunction | vm_translator.cpp:322-345 | appends the function template and makes f the current function |
| VmStackEffects.TargetOfSegment | vm_translator.cpp:352-380 | for an index below 32768: argument, local, this and that address their base register plus the index; pointer and temp address R(3+i) and R(5+i); static addresses its own symbol |
| VmStackEffects.AddressEffect | vm_translator.cpp:352-380 | for an index below 32768, the address code leaves the target in A, changes no memory and does not jump |
| VmStackEffects.PushEffect | vm_translator.cpp:195-214 | push writes the value at the old SP and SP ends one higher; this holds in both translators |
| VmStackEffects.PushConstantEffect | vm_translator.cpp:198-213 | for i below 32768, `push constant i` writes i itself (`v == i`) at the old SP and raises SP by one |
| VmStackEffects.PushSegmentEffect | vm_translator.cpp:201-213 | push from a segment writes the value at its target |
| VmStackEffects.PopEffect | vm_translator.cpp:214-230 | pop first saves the target in the scratch cell (R13, or `address` in 07/vm_translator.cpp:200-217), then decrements SP once and stores the old top at the saved address |
| VmStackEffects.PopMovesTop | vm_translator.cpp:214-230 | in the usual layout pop moves the top to its target and SP ends one lower |
| VmStackEffects.PushPopConstant | vm_translator.cpp:195-230 | for c and i below 32768, `push constant c` then `pop seg i` stores c at the target, and SP is back where it was |
| VmStackEffects.UnaryEffect | vm_translator.cpp:144-153 | not and neg rewrite only the top of the stack; SP is unchanged |
| VmStackEffects.BinaryEffect | vm_translator.cpp:156-170 | add, sub, or and and decrement SP exactly once and overwrite the new top with x op y, in 16 bits |
| VmStackEffects.CompareEffect | vm_translator.cpp:171-192 | a comparison pops y, computes x - y in 16 bits and jumps to TRUEn exactly when it holds; otherwise it writes 0 over x and jumps to ENDn |
| VmStackEffects.TrueBranchEffect | vm_translator.cpp:186-190 | the code at TRUEn writes -1 over the top and falls through |
| VmStackEffects.GotoEffect | vm_translator.cpp:237-240 | goto jumps to `fn$label` and changes no memory |
| VmStackEffects.IfEffect | vm_translator.cpp:242-248 | if-goto pops once and jumps exactly when the popped value is not 0 |
| VmStackEffects.SaveAllEffect | vm_translator.cpp:259-267 | LCL, ARG, THIS and THAT are pushed in that order |
| VmStackEffects.CallEffect | vm_translator.cpp:250-286 | call pushes RETURNk and the caller's LCL, ARG, THIS and THAT, sets ARG to SP - n - 5 and LCL to the new SP, and jumps to f; n + 5 must be below 32768, so that `@(n+5)` is an A-instruction |
| VmStackEffects.RestoreAllEffect | vm_translator.cpp:309-316 | THAT, THIS, ARG and LCL are restored from LCL-1 down to LCL-4 |
| VmStackEffects.ReturnBodyEffect | vm_translator.cpp:288-317 | up to its jump, return saves RAM[LCL-5] in R13 before RAM[ARG] is overwritten with the result, sets SP to ARG + 1 and restores THAT, THIS, ARG and LCL from the frame, and does not jump |
| VmStackEffects.ReturnJumpEffect | vm_translator.cpp:318-319 | the return's last two lines as written jump to instruction 13, leave memory alone and load the saved address into A |
| VmStackEffects.FixedReturnJumpEffect | vm_translator.cpp:318-319 | `@R13`, `A=M`, `0;JMP` jump to the address saved in R13 and leave memory alone |
| VmStackEffects.ReturnEffect | vm_translator.cpp:288-320 | return as written leaves memory as `Returned` (R13 holds RAM[LCL-5]) and then jumps to instruction 13 |
| VmStackEffects.FixedReturnEffect | vm_translator.cpp:288-320 | the corrected return leaves the same memory and jumps to the saved return address RAM[LCL-5] |
| VmStackEffects.CallThenReturn | vm_translator.cpp:250-320 | after a call and the callee's corrected return, control is at RETURNk, the arguments are popped, the result sits where the first argument was and the caller's registers are back |
| VmStackEffects.CallThenReturnAsWritten | vm_translator.cpp:250-320 | with the return as written the memory ends the same, but control goes to instruction 13 and so never to a RETURNk placed elsewhere |
| VmStackEffects.InitLoopFills | vm_translator.cpp:328-344 | for n below 32768, from a count of i the loop pushes n - i zeros and leaves for `f-INITLOOP-END` |
| VmStackEffects.FunctionFills | vm_translator.cpp:322-345 | for n below 32768, `function f n` pushes exactly n zeros, SP rises by n, and no other cell but R13 changes |
| VmStackEffects.InitEffect | vm_translator.cpp:132-140 | the bootstrap builds the first frame at 256..260, sets ARG to 256 and LCL and SP to 261, and jumps to Sys.init |
| VmProgram.LowerState | vm_translator.cpp:142-345 | one command changes the state only as its write method does: a comparison bumps `labelCnt`, a call bumps `callCnt`, only a function declaration sets `functionName`, and nothing changes `filename` |
| VmProgram.LowerAllCounters | vm_translator.cpp:173-191 | over a run of commands the counters move on by the number of comparisons and of calls |
| VmProgram.BeforeMonotone | vm_translator.cpp:191 | the counters never move back |
| VmProgram.CompareLabelsDistinct | vm_translator.cpp:173-191 | two different comparisons declare different TRUEn and ENDn |
| VmProgram.ReturnLabelsDistinct | vm_translator.cpp:252-285 | two different calls declare different RETURNk |
| VmProgram.LowerDeclares | vm_translator.cpp:142-345 | each command declares exactly its own labels: TRUEn and ENDn, RETURNk, `fn$label`, or f and its two loop labels |
| VmProgram.DecodeAll | vm_translator.cpp:400-419 | the commands are read pointwise from the lines, and reading fails exactly when one line fails |
| VmProgram.Dispatch | vm_translator.cpp:400-419 | one command is dispatched to its write method, with `arg1` and `arg2`; nothing is written when `stoi` fails |
| VmProgram.DispatchAll | vm_translator.cpp:400-420 | the `while` loop writes the code of all of a file's commands, in order |
| VmProgram.TranslateFile | vm_translator.cpp:394-420 | a ".vm" file gets its module name and then the code of its commands, carrying the writer state on |
| VmProgram.TranslateAll | vm_translator.cpp:393-421 | the `for` loop writes the files' code in turn and skips files not ending in ".vm" |
| VmProgram.Translate | vm_translator.cpp:389-425 | `main` writes exactly the program the lowering function gives |
| VmProgram.LowerFilesFails | vm_translator.cpp:393-421 | the translation fails exactly when `stoi` fails on some command of some ".vm" file |
| VmProgram.TranslateFails | vm_translator.cpp:389-425 | the whole run fails exactly when some ".vm" file has an unreadable number |
| VmProgram.TranslateNoVm | vm_translator.cpp:389-425 | a directory without ".vm" files gives just the bootstrap |
| VmProgram.TranslateStartsWithInit | vm_translator.cpp:392 | every output starts with the bootstrap and goes to the directory's ".asm" file |
| VmProgram.LowerFilesCounters | vm_translator.cpp:393-421 | the counters are never reset between files: after all files they have moved on by the number of comparisons and of calls in the ".vm" files |
| VmProgram.NumberedDeclared | vm_translator.cpp:172-191 | the labels a comparison declares are exactly TRUEn and ENDn, and those of a call exactly RETURNk, numbered by the current counters; other commands number no label |
| VmProgram.InitNumbered | vm_translator.cpp:132-138 | the bootstrap declares exactly RETURN0 |
| VmProgram.RunNumberedSpan | vm_translator.cpp:173-191 | the numbered labels of one file's commands are pairwise different and lie between the counters before and after the file |
| VmProgram.FilesNumberedSpan | vm_translator.cpp:393-421 | the same across all files, the counters carrying on from file to file |
| VmProgram.RunDeclaresNumbered | vm_translator.cpp:173-191 | every numbered label of a file's commands is declared in the file's code |
| VmProgram.FilesDeclaresNumbered | vm_translator.cpp:393-421 | every numbered label of the files is declared in their code |
| VmProgram.ProgramDeclaresNumbered | vm_translator.cpp:389-421 | every numbered label of the program, RETURN0 included, is declared in the bootstrap and the files' code |
| VmProgram.DistinctNames | vm_translator.cpp:172-191 | different numbered labels have different names |
| VmProgram.ProgramLabelsDistinct | vm_translator.cpp:389-421 | for a translation that succeeds, RETURN0 of the bootstrap and the TRUEn, ENDn and RETURNk of all files are declared in the output and have pairwise different names |
| EarlyTranslator.OutputPath | 07/vm_translator.cpp:260 | `X.vm` is written to `X.asm` |
| EarlyTranslator.CodeWriter.constructor | 07/vm_translator.cpp:110-116 | the stream is empty and `labelCnt` is 0 |
| EarlyTranslator.CodeWriter.SetFileName | 07/vm_translator.cpp:118-124 | opens the given path empty and takes its base name minus three characters as the module name |
| EarlyTranslator.CodeWriter.WriteArithmetic | 07/vm_translator.cpp:127-179 | appends the arithmetic template numbered by the old `labelCnt`, which moves on by one exactly for a comparison |
| EarlyTranslator.CodeWriter.WritePushPop | 07/vm_translator.cpp:181-218 | appends the early push or pop template, which pops through `address` |
| EarlyTranslator.CodeWriter.GetAddress | 07/vm_translator.cpp:225-254 | appends the early address code |
| EarlyTranslator.DecodeLine | 07/vm_translator.cpp:266-275 | a line yields nothing unless it is arithmetic, push or pop, and fails exactly for a push or pop without a number |
| EarlyTranslator.DecodeLinesFails | 07/vm_translator.cpp:266-275 | a file fails exactly when some push or pop has an unreadable index |
| EarlyTranslator.StackLabels | 07/vm_translator.cpp:157-177 | one command moves `labelCnt` on and declares TRUEn and ENDn exactly when it is a comparison |
| EarlyTranslator.LowerStackAllLabels | 07/vm_translator.cpp:157-177 | a file declares TRUEm and ENDm in order for each of its comparisons |
| EarlyTranslator.FileLabelsDistinct | 07/vm_translator.cpp:157-177 | no label is declared twice in a file's code |
| EarlyTranslator.ModuleNameOfInput | 07/vm_translator.cpp:123 | for input `X.vm` the module name is `X.`, from the output `X.asm` |
| EarlyTranslator.StaticMatchesFull | 07/vm_translator.cpp:236-238 | so its static symbols and push code are those the full translator writes for the same file |
| EarlyTranslator.SameStaticPush | 07/vm_translator.cpp:181-199 | the two translators' push code differs only in the static symbol |
| EarlyTranslator.WriteCommand | 07/vm_translator.cpp:267-275 | one command writes its template or nothing, and ends the run when `stoi` fails |
| EarlyTranslator.TranslateCommands | 07/vm_translator.cpp:266-276 | the `while` loop writes the code of the pending commands in order, or fails as decoding fails |
| EarlyTranslator.TranslateFromIndex | 07/vm_translator.cpp:258-279 | `main` from any start of the parser's index writes what the function of the commands from there gives |
| EarlyTranslator.Translate | 07/vm_translator.cpp:258-279 | with the index starting at 0, every command of the file is translated |
| EarlyTranslator.UninitialisedIndexSkips | 07/vm_translator.cpp:16 | an illustration only (the general case is TranslateFromIndex): for the one-command file "neg", a start of 1 skips the command and nothing is written |
| AsmParser.CleanAsmLine | 06/assembler.cpp:23-35 | a kept line is non-empty, without whitespace or "//", and a prefix of the line with whitespace removed; a line is dropped exactly when nothing precedes its comment |
| AsmParser.CleanAsmLineClean | 06/assembler.cpp:23-35 | a stored command is kept as it is |
| AsmParser.CleanAsmLineIdempotent | 06/assembler.cpp:23-35 | cleaning twice is cleaning once |
| AsmParser.SpacedMarkerIsComment | 06/assembler.cpp:25-30 | whitespace is removed before the comment search, so "/ /" starts a comment |
| AsmParser.CleanAsmAllClean | 06/assembler.cpp:23-35 | every stored command is non-empty and free of whitespace and comments |
| AsmParser.CleanAsmAllAppend | 06/assembler.cpp:23-35 | commands keep the order of their lines |
| AsmParser.ReadAsmCommands | 06/assembler.cpp:23-35 | the constructor's loop stores exactly the cleaned non-empty lines |
| AsmParser.Parser.constructor | 06/assembler.cpp:19-38 | the stored commands are the cleaned lines, and the index starts at 0 |
| AsmParser.Parser.Advance | 06/assembler.cpp:44-47 | the current command becomes the one at the index, and the index moves on by one |
| AsmParser.Parser.Reset | 06/assembler.cpp:97-99 | the index is back at 0 and the commands are unchanged |
| AsmParser.KindOf | 06/assembler.cpp:49-57 | an A-command exactly when the line starts with '@', an L-command exactly when it starts with '(' |
| AsmParser.Symbol | 06/assembler.cpp:59-65 | an A-command is '@' followed by its symbol; any other command of two or more characters is its symbol between its first and last characters |
| AsmParser.SymbolOfCommand | 06/assembler.cpp:59-65 | the symbol of `@s` and of `(s)` is s |
| AsmParser.FieldsOfBuild | 06/assembler.cpp:67-95 | splitting `d=comp;j` gives back d (or "null"), comp and j (or "null") |
| AsmParser.Dest | 06/assembler.cpp:67-74 | "null" when the command has no '='; otherwise a text without '=' that, followed by '=', begins the command |
| AsmParser.Comp | 06/assembler.cpp:76-86 | a command without '=' and ';' is its own comp; when the first '=' comes before the first ';', comp has no ';' and the command ends with comp and the text from the first ';' on; otherwise comp is everything after the first '=' |
| AsmParser.Jump | 06/assembler.cpp:88-95 | "null" when the command has no ';'; otherwise the command ends with ';' and the jump, and has no ';' before that one |
| AsmParser.DestOfBuild | 06/assembler.cpp:67-74 | dest is the text before the first '=', or "null" |
| AsmParser.CompOfBuild | 06/assembler.cpp:76-86 | comp is the text between the '=' and the ';' |
| AsmParser.JumpOfBuild | 06/assembler.cpp:88-95 | jump is the text after the ';', or "null" |
| AsmParser.BuildOfFields | 06/assembler.cpp:67-95 | putting the present fields of a command back together gives the command |
| AsmCode.IndexOf | 06/assembler.cpp:114 | `std::find` gives the first position holding the text, or the table's length when none does |
| AsmCode.DestCode | 06/assembler.cpp:104-115 | a dest code is below 8 exactly for a known mnemonic, and 8 otherwise |
| AsmCode.JumpCode | 06/assembler.cpp:108-151 | a jump code is below 8 exactly for a known mnemonic, and 8 otherwise |
| AsmCode.DestCodeBits | 06/assembler.cpp:104-106 | the dest bits 4, 2 and 1 are set exactly when A, D and M are written |
| AsmCode.JumpCodeBits | 06/assembler.cpp:108-110 | the jump bits 4, 2 and 1 select jumping on a negative, zero and positive result |
| AsmCode.CompCode | 06/assembler.cpp:117-147 | a known mnemonic has a 7-bit code whose a-bit is set exactly when it reads M; any other text gives -1 |
| AsmCode.CompCodeInjective | 06/assembler.cpp:117-147 | different known mnemonics have different codes |
| AsmCode.CompCodeComputes | 06/assembler.cpp:117-147 | each code makes the Hack ALU compute what its mnemonic says, for all register values |
| AsmCode.NotAndNot | 06/assembler.cpp:134-135 | the negated AND of the negations is the OR, which makes the `D\|A` code compute OR |
| AsmOfEmitted.EmittedCompKnown | 06/assembler.cpp:117-147 | of the computations the translators write, exactly `M+D`, `M\|D` and `M&D` (vm_translator.cpp:164-170) are missing from the comp table |
| AsmOfEmitted.EmittedCompComputes | 06/assembler.cpp:117-147 | every other written computation assembles to the code of what the interpreter computes for it |
| AsmOfEmitted.EmittedBinaryLine | 06/assembler.cpp:228-233 | the lines `M=M+D`, `M=M\|D` and `M=M&D` (vm_translator.cpp:164-170) parse as dest M, no jump and the unknown comp, and assemble to the word of comp -1, dest 1 and jump 0 |
| AsmOfEmitted.EmittedBinaryWord | 06/assembler.cpp:232 | that word is 0xDFC8: its comp field has every bit set, which makes the ALU output 1, so each of the three lines stores 1 |
| AsmOfEmitted.FixedCompComputes | 06/assembler.cpp:117-147 | spelled `D+M`, `D\|M` and `D&M`, every written computation is in the comp table and its code computes what the interpreter computes |
| AsmOfEmitted.FixedBinaryWord | 06/assembler.cpp:228-233 | with the corrected spelling the three lines assemble to a C-command storing into M, with no jump, whose ALU code computes the sum, or or and of M and D |
| AsmSymbols.SymbolTable.constructor | 06/assembler.cpp:159-170 | a new table holds exactly the predefined symbols, with the registers entered in a loop |
| AsmSymbols.SymbolTable.AddEntry | 06/assembler.cpp:172-174 | the symbol now has the address and nothing else changes |
| AsmSymbols.SymbolTable.GetAddress | 06/assembler.cpp:180-182 | a present symbol gives its address and the table is unchanged; a missing one is entered as 0 |
| AsmSymbols.PredefinedPointers | 06/assembler.cpp:160-169 | a new table maps SP, LCL, ARG, THIS and THAT to 0..4, SCREEN to 16384 and KBD to 24576 |
| AsmSymbols.PredefinedRegisters | 06/assembler.cpp:165-167 | a new table maps Ri to i for every i below 16 |
| AsmSymbols.WithRegistersLookup | 06/assembler.cpp:165-167 | the register loop maps Ri to i and leaves every other name as it was |
| AsmSymbols.RegNameInjective | 06/assembler.cpp:166 | distinct registers get distinct names |
| AsmEncode.CWordFields | 06/assembler.cpp:232 | with c < 128 and d, j < 8 the word's top three bits are 111, and c, d and j are read back from their places |
| AsmEncode.CWordOfFields | 06/assembler.cpp:232 | every word whose top three bits are 111 is the C-word of its fields |
| AsmEncode.KnownFieldsInRange | 06/assembler.cpp:229-232 | the codes of known mnemonics are in range, so their fields come back |
| AsmEncode.BinValueOfBin | 06/assembler.cpp:225-226 | the printed digits are binary and stand for the value reduced to the width |
| AsmEncode.BinOfBinValue | 06/assembler.cpp:225-226 | printing the value of a string of binary digits at its own width gives it back |
| AsmEncode.WordTextRoundTrip | 06/assembler.cpp:225-226 | every word prints as exactly sixteen binary digits, which read back as the word |
| AsmEncode.WordTextInjective | 06/assembler.cpp:225-226 | distinct words print differently |
| AsmEncode.CWordText | 06/assembler.cpp:232-233 | a C-word with fields in range prints starting "111" |
| AsmEncode.AWordText | 06/assembler.cpp:225-226 | an address below 32768 prints starting '0' |
| AsmMain.LastLabel | 06/assembler.cpp:196-205 | the last declaration of a label, or none when there is none |
| AsmMain.LabelsLookup | 06/assembler.cpp:196-205 | after the first pass a declared label holds the count of non-label commands before its last declaration; other symbols keep their entries |
| AsmMain.LabelAddressesNextWord | 06/assembler.cpp:196-235 | that count is the number of words written before the label, so the label addresses the next instruction |
| AsmMain.FirstPass | 06/assembler.cpp:196-205 | the first loop leaves the table the label function gives |
| AsmMain.ResolveOperand | 06/assembler.cpp:213-224 | a numeral gives its value; a known symbol gives its entry; a new symbol is entered at `varAddress`, which moves on by one |
| AsmMain.WriteCommand | 06/assembler.cpp:212-234 | an A-command writes its address, a C-command writes its word, a label writes nothing |
| AsmMain.SecondPass | 06/assembler.cpp:207-235 | the second loop writes the printed words, and leaves the table, that the encoding function gives from address 16 |
| AsmMain.EncodeCount | 06/assembler.cpp:210-235 | each command but a label writes exactly one word |
| AsmMain.EncodeTable | 06/assembler.cpp:209-224 | the second pass keeps every entry it starts with, and enters new symbols only at consecutive fresh addresses from 16 on |
| AsmMain.EncodeAppend | 06/assembler.cpp:210-235 | encoding two runs in turn is encoding the first, then the second from where it left off |
| AsmMain.AddressWord | 06/assembler.cpp:213-226 | the word an A-command writes is its resolved address |
| AsmMain.SameSymbolSameAddress | 06/assembler.cpp:216-224 | two uses of the same operand resolve to the same address |
| AsmMain.KnownOperand | 06/assembler.cpp:218-219 | a symbol already in the table resolves to its entry |
| AsmMain.LabelResolves | 06/assembler.cpp:196-224 | an operand naming a label resolves to the count of non-label commands before the label's last declaration |
| AsmMain.CCommandLine | 06/assembler.cpp:228-234 | a C-command with known mnemonics prints starting "111", and its comp, dest and jump codes are read back from the word |
| AsmMain.Texts | 06/assembler.cpp:226 | one printed line per word, in order |
| AsmMain.OutputNameOfAsm | 06/assembler.cpp:188 | `X.asm` is written to `X.hack` |
| AsmMain.AssembleLinesShape | 06/assembler.cpp:186-239 | the output has one line per non-label command, each of sixteen binary digits |
| AsmMain.Assemble | 06/assembler.cpp:186-239 | `main` writes the output name's file with exactly the lines both passes give |

## Left out

- File and stream I/O, `argv` and `assert(infile.is_open())`: an input file is the sequence of its lines, and the output is a path and the sequence of lines written to it. `close` has no counterpart.
- The directory walk of vm_translator.cpp:393 has no specified order, so the driver takes the directory's files as a given sequence.
- The debug printing to `std::cout` at 07/vm_translator.cpp:237 and 269 writes nothing to the output file, so it is not modelled.
- `isspace` depends on the locale. Whitespace is modelled as space, tab and carriage return, so newline, vertical tab and form feed are not treated as whitespace in a line.
- Text.Stoi: models `std::stoi` only on the text the parsers give it, as the value of its leading decimal digits. It does not model a leading sign or leading whitespace, and it does not model out-of-range values. The exception `stoi` throws where no digit starts the text ends the program; in the model it ends the translation with no result.
- The `idx` fields left uninitialised at 07/vm_translator.cpp:16 and 06/assembler.cpp:16 are modelled as starting at 0, as `reset` would set them. EarlyTranslator.TranslateFromIndex also covers any other start.
- `int` overflow of `labelCnt`, `callCnt`, `address` and `varAddress` is not modelled: the counters are unbounded naturals.
- VmProgram.ProgramLabelsDistinct: speaks only of the numbered labels TRUEn, ENDn and RETURNk. A function or label name chosen in the VM source, such as a function called `RETURN0`, can still coincide with one of them; the source does not prevent that and the model claims nothing about it.
- The Hack interpreter covers only the instructions the translators write and treats SCREEN and KBD as ordinary memory.
- The Hack interpreter keys memory by the whole 16-bit A register. The CPU addresses data memory with only the low 15 bits of A. The effect lemmas allow SP and the segment bases up to 65530, so above 32767 their cells are not the CPU's.
- The Hack interpreter gives `@n` a meaning for every n: A becomes n mod 65536. Only n below 32768 is an A-instruction, because 06/assembler.cpp:225 writes a larger n as a word with bit 15 set, which the CPU runs as a C-instruction. So the lemmas that execute an `@n` with a variable n require it below 32768 (`Hack.AddressLimit`): TargetOfSegment, AddressEffect, PushEffect, PushConstantEffect, PushSegmentEffect, PopEffect, PopMovesTop and PushPopConstant for the index, CallEffect, CallThenReturn and CallThenReturnAsWritten for n + 5, InitLoopFills and FunctionFills for the local count. The model says nothing about the translated code for larger values.
- The run-time behaviour of the comparison branches and of the local-initialisation loop is stated one piece at a time: CompareEffect, TrueBranchEffect and InitLoopFills. No lemma follows a whole program through its jumps.
- AsmEncode.CWordFields: the word layout is stated only for known mnemonics. For an unknown mnemonic (comp -1, dest or jump 8) the word is computed with the same formula and truncated to 16 bits, as `std::bitset<16>` does. No layout property is claimed for it.
- An A-command whose value is 32768 or more is truncated to 16 bits like any word. AsmEncode.AWordText claims the leading '0' only below 32768.
- The assembler's `Code` object and the `SymbolTable::contains` check are folded into the functions and the predicate of the model. They keep no state.

## Findings

| source | as written | input that shows it | evidently intended | confidence | as-written member | corrected member |
|---|---|---|---|---|---|---|
| vm_translator.cpp:318-319 | `@R13` then `A=M;JMP`: the jump goes to the A of the same cycle, which is 13 | any `call f n` followed by the callee's `return`, with RETURNk at an address other than 13 | `@R13`, `A=M`, `0;JMP`: jump to the return address saved in R13 | not executed | VmStackEffects.ReturnEffect, VmStackEffects.CallThenReturnAsWritten | VmCode.FixedReturnCode, VmStackEffects.FixedReturnEffect, VmStackEffects.CallThenReturn |
| vm_translator.cpp:164-170 | `add`, `or` and `and` write `M=M+D`, `M=M\|D` and `M=M&D`; the assembler's comp table (06/assembler.cpp:117-146) lacks `M+D`, `M\|D` and `M&D`, gives -1, and the word is 0xDFC8, which stores 1 | the VM command `add` from either translator, assembled by the assembler | `M=D+M`, `M=D\|M`, `M=D&M`, which the table knows and which compute the sum, or or and | not executed | AsmOfEmitted.EmittedBinaryWord | AsmOfEmitted.FixedCompText, AsmOfEmitted.FixedCompComputes, AsmOfEmitted.FixedBinaryWord |

The translators in the model still write the text the source writes; the
corrected members state what the evident fix would do.
