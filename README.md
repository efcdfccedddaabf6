# SimpleShell: the command-line tokenizer and option collection

This project models, in Dafny, the part of SimpleShell's `shell.c` that
turns one input line into a command:

- `setup()`, which scans the line held in an 80-character buffer
  (`MAX_LINE`), overwrites every space, tab, newline and `&` with `'\0'` in
  place, records the start index of each argument in `args`, ends `args`
  with a NULL sentinel and raises the `*background` flag when it meets an
  `&`. A read of zero bytes ends the program with status 0, a failed read
  with status -1.
- the loop body of `main()` around it: the flag is cleared before each
  call, and the arguments after the program name are counted (up to the
  first NULL from index 1 on, at most `MAX_LINE`) and copied into an
  `options` array, one fewer when the command runs in the background.

Representation:

- `inputBuffer` is an `array<char>` of `MAX_LINE` characters; what `read`
  put there is simply its contents, and `read`'s result is the parameter
  `length` (at most `MAX_LINE`).
- `args` is an `array<int>` of `MAX_LINE + 1` slots holding buffer indices
  instead of pointers; `NULL` is `-1`.
- `*background` is an in-parameter and an out-parameter of `Setup`.
- `Setup` returns `Exit(0)`, `Exit(-1)` or `Parsed(ct)` instead of calling
  `exit`.

`Tokenizer.Scan` / `ScanPrefix` state what the loop of `setup()` computes,
character by character (`Step` is one iteration of the `switch`), and
`Setup` is the in-place method proved against it; `Scan` raises the flag
exactly when the line holds an `&`. `TokenizerProperties` proves what the
scan means: argument starts are non-whitespace, non-decreasing and each lies
before the whitespace that recorded it; for a line whose only newline is
the last character the arguments are exactly the starts of its words
(`RunStarts`, an independent definition), and, when the line contains
neither `&` nor `'\0'`, each reads after the scan as that word
(`ArgumentIsWord`); a word not followed by whitespace is never recorded; a
newline does not close the open argument. `ShellMain` models the counting
and copying in `main()` and the quirks of an `&`, lone or attached.

Behaviour of `shell.c` the model reproduces:

- A failed read (`length < 0`) calls `perror` and then `exit(-1)`
  (shell.c:28-31); a read of zero bytes calls `exit(0)` (shell.c:26-27).
- A newline does not end the scan: the loop runs to `length`
  (shell.c:33), and a newline records the open argument without closing it
  (shell.c:44-51), so text after an embedded newline is attributed to the
  argument already open and is recorded again at the next whitespace.
- An `&` is not a separator: it falls into the default branch and opens an
  argument like any other character (shell.c:52-58), so a lone `&` yields
  an empty argument, and an `&` inside a word cuts the word short.
- `main()` drops the last argument whenever the flag is set
  (shell.c:116). After a lone `&` that is the empty argument; after an `&`
  attached to the last word, as in `sleep 5&`, it is that word, so no
  option is copied.
- A word that is not followed by whitespace is never recorded: the open
  `start` is dropped when the loop ends and `args[ct]` becomes NULL
  (shell.c:52-54, 61). This happens when input ends without a newline or a
  read stops at `MAX_LINE` characters in the middle of a line; for `ls -l`
  only `ls` is an argument.
- `setup()` keeps its count `ct` in a local variable; `Setup` returns it in
  `Parsed(ct)` so the model can state what `args` holds.
- When the line has no argument at all, `args[0]` is NULL but the count in
  `main()` starts at index 1 (shell.c:102-113) and stops at the first NULL
  among whatever `args[1..]` holds (entries an earlier command left there,
  or uninitialised memory on the first pass); `PrepareCommand`
  states this for every parsed line, and for a line with arguments the
  count is exactly the number of arguments.

## Model

| member | source | states |
|---|---|---|
| `Tokenizer.Setup` | shell.c:14-62 | a zero-length read gives `Exit(0)` and a negative one `Exit(-1)`, changing nothing; otherwise `args[0..ct)` are the argument starts of the scan, `args[ct]` is NULL, `ct <= length`, later slots are unchanged, the flag is the old flag or-ed with the scan's, each of the first `length` characters is replaced by `'\0'` exactly when it was space, tab, newline or `&`, and characters from `length` on are unchanged |
| `Tokenizer.Step` | shell.c:34-59 | one iteration of the `switch` never changes an argument already recorded and records at most one more, exactly when the character is space, tab or newline and an argument is open; the flag afterwards is the flag before or-ed with "the character is `&`"; afterwards no argument is open exactly when the character is a space or tab, or it is a newline and none was open |
| `Tokenizer.Scan` | shell.c:33-60 | after the whole line at most one argument per character is recorded, the open argument starts inside the line, and the flag is raised exactly when the line holds an `&` |
| `Tokenizer.ScanPrefix` | shell.c:33-60 | after `n` characters at most `n` arguments are recorded (one per character at most), so every write `args[ct]` lands inside the `MAX_LINE + 1` slots, and the open argument starts among the characters read |
| `Tokenizer.BackgroundIffAmpersand` | shell.c:52-58 | the background flag of the scan is raised exactly when some character read is `&` |
| `TokenizerProperties.RecordedStartsOrdered` | shell.c:37-54 | every recorded start is an index of the line holding a non-whitespace character, recorded starts never decrease, and the open argument starts no earlier than any recorded one |
| `TokenizerProperties.RecordedBeforeSeparator` | shell.c:35-51 | arguments are recorded only at space, tab or newline positions, at most one per position, in increasing position order, and each recorded start is smaller than the position that recorded it |
| `TokenizerProperties.RunStartsCharacterized` | shell.c:9-13 | the reference list of word starts holds exactly the indices that begin a maximal run of non-whitespace characters, in strictly increasing order |
| `TokenizerProperties.ScanFollowsRuns` | shell.c:33-60 | before any newline, the recorded arguments plus the open one are exactly the word starts read so far, and an argument is open exactly when the last character read is not whitespace |
| `TokenizerProperties.TokensAreRunStarts` | shell.c:9-13 | for a line whose only newline is its last character, the recorded arguments are the starts of its words, left to right |
| `TokenizerProperties.WordEndsInNul` | shell.c:35-51 | in a line ending in whitespace, every word ends inside the line and the scan leaves a `'\0'` right after it, whether or not the line holds `&` or `'\0'` |
| `TokenizerProperties.ArgumentIsWord` | shell.c:41-57 | in a line without `&` or `'\0'`, the C string at an argument start after the scan is the word starting there |
| `TokenizerProperties.ScanWord` | shell.c:52-54 | reading non-whitespace characters records nothing, opens an argument at the first of them when none is open, and keeps an open one |
| `TokenizerProperties.UnterminatedWordDropped` | shell.c:52-61 | for text without a newline whose last character is not whitespace, the recorded arguments are all its word starts but the last, and the last is the argument still open when the loop ends, which is never written to `args` |
| `TokenizerProperties.EmbeddedNewline` | shell.c:44-51 | for two words separated and ended by newlines, both recorded arguments start at index 0: the newline does not reset `start` |
| `ShellMain.NumOptions` | shell.c:114-116 | the option count never exceeds the `i - 1` slots of `options`, and is one less than that exactly when the command runs in the background |
| `ShellMain.ArgEnd` | shell.c:102-113 | the count stops at the least index from 1 on whose `args` entry is NULL, or at `MAX_LINE` |
| `ShellMain.CollectOptions` | shell.c:102-121 | the count as in `ArgEnd`; `numOpt` is `i - 2` in the background and `i - 1` otherwise; `options` has `i - 1` slots and `options[j] == args[j + 1]` for every `j < numOpt` |
| `ShellMain.PrepareCommand` | shell.c:73-121 | a read that ends the program gives `Exit(0)` or `Exit(-1)` and changes neither array; for a parsed line the flag, cleared before the scan, is set exactly when the line holds `&`, `args` and the buffer are left as `Setup` leaves them (argument starts of the scan, NULL at `ct`, later slots unchanged, whitespace and `&` replaced by `'\0'`), the count stops at the first NULL from index 1 on or at `MAX_LINE`, and `options[j] == args[j + 1]` for the `numOpt` options; when the line has arguments the count equals `ct` and the options are the argument starts after the first |
| `ShellMain.StandaloneAmpersand` | shell.c:45-58 | after a separator, a lone `&` before the newline adds one argument at its own position, which reads as the empty string, raises the flag, and, when the text before the `&` holds a word, the background adjustment of `numOpt` leaves exactly the options of the same line without the `&` |
| `ShellMain.SleepInBackground` | shell.c:33-61 | the line `sleep 5 &` gives arguments at 0, 6 and 8 reading `sleep`, `5` and the empty string, sets the flag, and with that count and flag one option is copied |
| `ShellMain.AttachedAmpersand` | shell.c:114-116 | for any text ending in a non-whitespace character, an `&` attached to it before the newline adds no argument and changes none (the last one is still the word open at the end of the text), turns into `'\0'`, raises the flag, and so main copies one option fewer than for the same line without the `&`: the last word is dropped |
| `ShellMain.SleepAttachedInBackground` | shell.c:114-116 | the line `sleep 5&` gives arguments at 0 and 6 reading `sleep` and `5`, sets the flag, and with that count and flag no option is copied: the option `5` is dropped |

## Left out

- `read` from standard input: its result is the parameter `length` and the bytes it read are the buffer's contents.
- `perror`, `printf` and `fprintf`: terminal output, with no effect on the state modelled.
- `fork` and `execvp` and the split between parent and child: process creation and image replacement are operating-system calls; the counting that the child performs is modelled as running in sequence after `setup()`.
- The history branch (`args[0] == "r"`): it compares a pointer with a string literal, so it is effectively never taken, and its body is empty.
- The `history` array and `historyIndex`: declared and never used.
- The wait for a background child: it is commented out, and there is no job table.
- The loop printing `options[0..i-1)`: debugging output, which reads past the `numOpt` slots written when the flag is set.
- The commented-out blocks in `main()`.
