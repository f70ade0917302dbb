# rs-int evaluation loop, modelled in Dafny

rs-int is an interactive shell for Rust. The user types one statement at a time. The statements
accepted so far are kept in a buffer (`lines`). After each new statement the tool regenerates a
complete Rust program from the buffer (`code`), compiles it with `rustc` and runs the result
(`interpret_code`). If either step fails, the new statement is popped off the buffer again. A
line whose trimmed form ends in a backslash is not finished: it is parked as pending text
(`unfinished_line`), and the next line is appended to it. `clear`/`c` empties the buffer.
`exit`/`e` ends the session, after which `clean` runs once more.

This project models that loop from `src/main.rs`:

- `ProgramText` (program_text.dfy) is the generator `code`. The pure `Code` is its
  specification: a fixed header, then each statement followed by a newline, then a fixed footer.
  `GenerateCode` is the source's loop, proved equal to `Code`. `ParseProgram` reads a
  program back into its statements; it is the inverse used to prove that the program text
  determines the buffer.
- `Text` (text.dfy) is Rust's `str::trim` with `char::is_whitespace`, and `ends_with`.
- `Repl` (repl.dfy) is the action closure. `Accumulate` is the continuation accumulator.
  `Transition` is one run of the closure on a value-level `SessionState`. `Run` feeds it a
  sequence of lines until `exit`. `Session` is the closure's captured state as a class: the
  fields `lines` and `pending` (the source's `unfinished_line`), and `exitRequested` standing
  for `app.exit()`. Its method `Step` is proved to perform `Transition`.
- `interpret_code` is an oracle parameter `interpret: string -> bool`. It says whether the
  toolchain accepted a program text, meaning it compiled with an empty error stream and then
  exited successfully. The ghost field `Session.accepted` records the texts it accepted. The
  invariant `Session.Valid()` has two parts. Every non-empty prefix of the buffer is a program
  the oracle accepted. Every statement, and the pending text, starts with the `;` that a fresh
  line is given.

Where the documented design and the code differ, the model follows the code:

- The control words are compared with the line as submitted, before trimming, so ` clear` is code.
- `clear` leaves the pending continuation in place; only the buffer is emptied (src/main.rs:94-96).
- `exit` only asks the input loop to stop. `clean` runs after the loop (src/main.rs:131), so
  pending text is dropped along with the session.

## Model

| member | source | states |
|---|---|---|
| ProgramText.Body | src/main.rs:13-16 | the loop's accumulator as a value: each statement of the buffer followed by one newline, in buffer order |
| ProgramText.Code | src/main.rs:11-27 | the program text `code` returns: the fixed header `"\n#![allow(unused)]\n\nfn main() {\nlet x = {\n"`, the body, then the footer `"\n};\nprintln!(\"{x:?}\");\n}\n"` of the `format!` literal |
| ProgramText.GenerateCode | src/main.rs:11-27 | the loop of `push_str(line)`/`push('\n')` followed by `format!` returns exactly `Code(lines)`: the header, then each statement plus a newline in buffer order, then the footer; the same buffer gives the same text |
| ProgramText.BodyAppend | src/main.rs:13-16 | adding a statement at the end of the buffer appends that statement and one newline at the end of the body |
| ProgramText.BodyConcat | src/main.rs:13-16 | the body of two buffers placed end to end is the two bodies placed end to end |
| ProgramText.CodeEmpty | src/main.rs:17-26 | an empty buffer gives the header immediately followed by the footer: an empty block |
| ProgramText.CodeAppend | src/main.rs:13-26 | `code(ls + [l])` is `code(ls)` with `l` and a newline inserted just before the footer, and nothing else changed |
| ProgramText.CodeOrder | src/main.rs:13-16 | statement `k` appears in the program, followed by its newline, right after the header and the bodies of statements `0..k`: statement order is program order |
| ProgramText.ParseCode | src/main.rs:11-27 | for statements without newlines, reading the generated program back yields the buffer exactly |
| ProgramText.CodeInjective | src/main.rs:11-27 | two buffers of single-line statements that give the same program text are equal |
| Text.IsWhitespace | src/main.rs:102 | `char::is_whitespace`: the characters with the Unicode White_Space property |
| Text.TrimStart | src/main.rs:102 | `trim_start`: drops leading whitespace characters one at a time |
| Text.TrimEnd | src/main.rs:102 | `trim_end`: drops trailing whitespace characters one at a time |
| Text.Trim | src/main.rs:102 | `line.trim()`: `trim_end` of `trim_start` |
| Text.EndsWith | src/main.rs:115 | `line.ends_with('\\')`: the string is non-empty and its last character is the given one |
| Text.TrimStartSlice | src/main.rs:102 | `trim_start` removes exactly the leading whitespace; what is left is a suffix that does not begin with whitespace |
| Text.TrimEndSlice | src/main.rs:102 | `trim_end` removes exactly the trailing whitespace; what is left is a prefix that does not end with whitespace |
| Text.TrimSlice | src/main.rs:102 | `trim` leaves a contiguous slice with only whitespace before and after it, and the slice has no whitespace at either end |
| Text.TrimNoOp | src/main.rs:102 | a line with no whitespace at either end is unchanged by `trim` |
| Text.TrimIdempotent | src/main.rs:102 | trimming a trimmed line changes nothing |
| Repl.Classify | src/main.rs:93-100 | `match app.line()`: exactly `"clear"` or `"c"` is the clear command, exactly `"exit"` or `"e"` the exit command, and any other line, untrimmed, is code |
| Repl.Start | src/main.rs:103-113 | `take(&mut unfinished_line)`: the pending text if there is one, otherwise a fresh `";"` |
| Repl.Accumulate | src/main.rs:102-119 | the trimmed line is appended to the start text; if the trimmed line ends in `\` the last character is popped and the result parked as pending text, otherwise the result is the finished statement |
| Repl.Unmark | src/main.rs:114-116 | what a continued line adds to the pending text: its trimmed form with the last character popped |
| Repl.Transition | src/main.rs:93-127 | one run of the action closure: clear empties the buffer, exit sets the exit flag, a parked line sets the pending text, and a finished statement clears the pending text and is kept exactly when the oracle accepts `Code(lines + [s])` |
| Repl.Submitted | src/main.rs:120-121 | the program handed to `interpret_code` in this step: `Code(lines + [s])` for a finished statement `s`, none for a control word or a parked line |
| Repl.Admitted | src/main.rs:121 | the programs the oracle accepted in this step: the submitted one if it was accepted, otherwise none |
| Repl.Run | src/main.rs:130 | `app.run()`: the action applied to each line in turn, and no line processed once exit has been requested |
| Repl.ControlWords | src/main.rs:93-99 | exactly `clear`/`c` is the clear command and exactly `exit`/`e` the exit command; clear empties the buffer and changes nothing else; exit sets only the exit flag; neither hands a program to the oracle |
| Repl.ControlNeverBuffered | src/main.rs:94-99 | after a control word the pending text is unchanged, the buffer is empty or as before, and no program is submitted: a control word is never pushed as code |
| Repl.FreshStatement | src/main.rs:102-121 | with no pending text, a line that does not end in the marker is finished as `";" + trim(line)`, the pending text is `None` afterwards, and the program submitted is `Code(lines + [";" + trim(line)])` |
| Repl.ContinuationJoins | src/main.rs:103-120 | with pending text `p`, a line whose trimmed form `t` does not end in the marker is finished as exactly `p + t`, with no `;` and no separator, and the pending text is cleared |
| Repl.ContinuationParks | src/main.rs:114-119 | a line whose trimmed form ends in `\` becomes pending text: the old pending text (or `;`) plus the trimmed line without its last character, which is the marker; the buffer and exit flag are unchanged, no program is submitted, and the result does not depend on the oracle |
| Repl.CommitOrRollback | src/main.rs:120-124 | for a finished statement `s`, the program `Code(lines + [s])` is submitted; if the oracle accepts, the buffer becomes `lines + [s]`; if not, it is exactly `lines` again; the pending text is `None` and the exit flag is unchanged either way |
| Repl.BufferChange | src/main.rs:93-127 | one line empties the buffer, leaves it as it was, or extends it by exactly one statement, and only when the program submitted for that line is the new buffer's program and was accepted |
| Repl.ContinuationExample | src/main.rs:102-120 | `let x = 1 \` parks `;let x = 1 `, and `+ 2` then finishes it as `;let x = 1 + 2` |
| Repl.TransitionWellFormed | src/main.rs:103-120 | a step keeps every buffered statement and the pending text starting with `;` |
| Repl.TransitionSound | src/main.rs:120-124 | a step keeps the buffer sound: if every non-empty prefix of the old buffer was accepted, and the program submitted in this step counts as accepted whenever the oracle accepted it, then every prefix of the new buffer was accepted |
| Repl.SoundPush | src/main.rs:120-124 | pushing a statement whose program was accepted onto a sound buffer gives a sound buffer |
| Repl.ExitStops | src/main.rs:97-99 | an exit line sets the exit flag and nothing else, and no later line is processed |
| Repl.ContinuedLines | src/main.rs:114-119 | a run of lines that all end in the marker leaves the buffer alone and appends each trimmed line, without its marker, to the pending text |
| Repl.MultiLineStatement | src/main.rs:102-124 | continued lines `cs` and a final line `l`, starting with no pending text, submit the single statement `";" + unmarked(cs) + trim(l)`; it is kept exactly when the oracle accepts it |
| Repl.FreshLineStep | src/main.rs:102-124 | a fresh, already trimmed line without the marker becomes `";" + line`, and is kept exactly when its program is accepted |
| Repl.RunSound | src/main.rs:93-130 | with one toolchain behaviour for the whole session, any sequence of lines keeps every non-empty prefix of the buffer an accepted program |
| Repl.TransitionSingleLines | src/main.rs:102-119 | a step on a line without a newline puts no newline into the buffer or the pending text: `trim` only removes characters, and the start text and the popped marker add none |
| Repl.RunSingleLines | src/main.rs:93-130 | lines typed one at a time keep every statement and the pending text newline-free, so every reachable buffer is read back exactly from its program text |
| Repl.RunWellFormed | src/main.rs:93-130 | any sequence of lines keeps every statement and the pending text starting with `;` |
| Repl.EndToEnd | src/main.rs:93-130 | `let x = 5;` and `x + 1` are kept and `x.bogus()` is rolled back, leaving two statements; then `clear` empties the buffer and `exit` ends the session |
| Repl.Session.constructor | src/main.rs:89-90 | a new session has an empty buffer, no pending text, no exit request and no accepted programs, and satisfies the invariant |
| Repl.Session.Clean | src/main.rs:40-45 | `clean` empties the buffer and keeps the pending text, the exit flag and the invariant |
| Repl.Session.Step | src/main.rs:93-127 | the action closure changes the session exactly as `Transition` does, records the program accepted in this step, if any, and keeps the invariant |
| Repl.Session.Submit | src/main.rs:120-124 | push the statement, submit `Code` of the new buffer, and pop it again on refusal: the buffer is `old + [s]` on acceptance and exactly `old` otherwise, and nothing else changes |

The lemmas `Repl.DefineX`, `Repl.UseX`, `Repl.RejectBogus` and `Repl.EndToEndStatements` are steps of the proof of `Repl.EndToEnd`, one per line of that session, and have no rows of their own.

## Left out

- `interpret_code`'s body (src/main.rs:47-80) is left out because it is file and process I/O. That covers writing `file.rs`, spawning `rustc` and `./file`, reading stderr, the `"\n"` to `"\r\n"` rewrite and the exit-status check. The model keeps only its verdict, the oracle `interpret`, together with the fact that it is asked about `Code(lines)` with the new statement pushed.
- The `remove_file` calls in `clean`, and the fixed paths `file.rs`, `./file` and `logs.txt`, are left out as filesystem side effects. `Session.Clean` models only `lines.clear()`.
- The `clinput::App` event loop is a foreign library and is left out: `App::new`, `app.line()`, `app.exit()`, `app.run()` and `app.log`. Each submitted line is a parameter. The exit request is the flag `exitRequested`, and `Repl.Run` stands for the loop's one-line-at-a-time dispatch.
- The log file opened with `OpenOptions`, `println_raw` and `stdout().flush()` are left out as terminal and file output. So are the error messages printed on failure.
- `String::reserve` and `String::with_capacity` are left out because they are allocation hints with no observable effect.
- Repl.RunSound: it assumes that the toolchain gives the same verdict on the same program text throughout a session. `Session.Step` takes a fresh oracle on every call and does not assume this.
- ProgramText.ParseCode: it holds only for statements that contain no newline. `Repl.RunSingleLines` proves that the loop produces only such statements when no input line contains a newline. That each line `app.line()` returns has no newline is taken as given, because the input library is not modelled.
- The `clean(&mut lines)` after `app.run()` (src/main.rs:131) is not applied to `Repl.Run`'s result, because the buffer is dropped with the session right after it. `Repl.Run` ends with the buffer as the last line left it. Its file removals are left out for the same reason as those of `clean` above.
- Rust strings are UTF-8 bytes. The model works on Unicode scalar values, which is the level at which `trim`, `ends_with` and `pop` operate.
