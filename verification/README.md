# SevenZip command builder — a Dafny model

This project models `Dimbo\SevenZip\SevenZip`, a fluent PHP builder that drives `7z.exe`. It collects a command verb, options, an optional self-extracting stub (`sfx`), an output file and input files. It turns them into one command-line string, runs it, and reads the exit code. A failing code raises a `SevenZipError` with a fixed message. A passing code clears the builder for its next use.

The model is functional. The builder is an immutable record (`State.SevenZip`), every setter returns a new record, and `run` is a function. That function takes the state and the process's exit code and returns three things: the command line it executed, the result (the code, or the error), and the state afterwards.

Modules:

- `Outcomes` (outcomes.dfy): the `Option`, `Outcome` and `Result` wrappers that stand for PHP's `null` and for a thrown exception.
- `Php` (php.dfy): the PHP semantics the class relies on. It covers `empty()` on strings (true for `""` and `"0"`) and decimal rendering of integers. It also covers how a PHP array normalises a key: a string such as `"5"` becomes the integer key `5`.
- `Spacing` (spacing.dfy): the separator rule shared by `appendArg` and `appendOneOption`. The module defines the fold that applies it and `JoinSpace`, which is PHP `join(' ', …)`. It proves that for clean tokens the fold is plain single-space joining.
- `State` (state.dfy): the builder's fields, the setters, `addOption` as a store into an insertion-ordered array, and `clearParams`.
- `Assembly` (assembly.dfy): `appendArg`, `appendOneOption`, `getFullPathToSfx`, `constructOptions`, `constructInputFiles` and `constructArgs`, written to follow the source's control flow. It also has a declarative list of the tokens the options segment consists of (`OptionTokens`). Lemmas tie the two together.
- `ExitCodes` (exit_codes.dfy): `checkResultCode`.
- `Runner` (runner.dfy): `run`, with the exit code as a parameter.
- `Scenarios` (scenarios.dfy): concrete builder chains and the strings they produce.

`escapeshellarg` is a parameter (`esc: string -> string`) and is never interpreted. Where a lemma needs something from it, the lemma assumes `Assembly.Quotes(esc)`: every result is wrapped in a matching pair of `'` or `"` characters, which both the POSIX and the Windows forms satisfy. Being non-empty is not enough for the lemmas. An escaped argument equal to `"0"` would be dropped by `appendArg`, and one ending in a space would swallow the separator. The quote pair rules out both. `Scenarios.PosixQuoteQuotes` shows the assumption can be met.

Behaviour modelled as the code does it, where a reader might expect otherwise:

- The output file is appended without escaping (SevenZip.php line 180).
- The sfx path is appended without escaping (line 138).
- An integer-keyed option emits its value as a bare, unescaped token (line 145). A `null` value there emits an empty token. A list value emits the text `Array`, which is what PHP's array-to-string conversion produces.
- `appendArg` skips `"0"` as well as `""`, because it tests with `empty()`. An output file literally named `0` is therefore dropped.
- `addOption` on an existing key replaces the value in the key's original position.

## Model

| member | source | states |
|---|---|---|
| Php.IntToString | src/Dimbo/SevenZip/SevenZip.php:248 | The decimal text of an integer is a well-formed integer string (no leading zeros, no "-0") that reads back as the same integer. |
| Php.IntStringRoundTrip | src/Dimbo/SevenZip/SevenZip.php:248 | In the other direction, reading a well-formed integer string and rendering it again gives back the same string. |
| Php.ArrayKey | src/Dimbo/SevenZip/SevenZip.php:99 | An integer option name is stored as that integer key. A string name that is not stored as an integer is stored as itself. |
| Php.ArrayKeyNumeric | src/Dimbo/SevenZip/SevenZip.php:99 | A string option name is stored under integer key n exactly when it is the decimal rendering of n and n fits a 64-bit PHP int. |
| Php.ArrayKeyInjective | src/Dimbo/SevenZip/SevenZip.php:99 | Two different string option names never end up under the same array key. |
| Spacing.AppendSepShape | src/Dimbo/SevenZip/SevenZip.php:117-124 | The accumulator is kept as a prefix and the token ends the result. When the accumulator is non-empty and does not end in a space, a space follows it. |
| Spacing.AppendSep | src/Dimbo/SevenZip/SevenZip.php:117-124 | The result is exactly as long as the accumulator plus the token, plus one character only when the accumulator is non-empty and does not end in a space. Together with `AppendSepShape`, that means a single space is inserted exactly then. |
| Spacing.SpacedJoin | src/Dimbo/SevenZip/SevenZip.php:104-130 | Appending clean tokens (non-empty, not ending in a space) to a clean accumulator, one at a time with the separator rule, equals joining them all with single spaces. |
| Spacing.SpacedFromEmpty | src/Dimbo/SevenZip/SevenZip.php:132-161 | Starting from the empty string, clean tokens appended with the separator rule come out exactly as `join(' ', tokens)`. |
| Spacing.SpacedExtends | src/Dimbo/SevenZip/SevenZip.php:104-130 | Appending tokens never rewrites what is already in the accumulator. |
| Spacing.JoinSpaceSnoc | src/Dimbo/SevenZip/SevenZip.php:172 | Joining one more token appends it after exactly one space. |
| State.New | src/Dimbo/SevenZip/SevenZip.php:36-41 | A new builder keeps the given binary directory and starts with every clearable field empty. |
| State.Put | src/Dimbo/SevenZip/SevenZip.php:99 | Storing into the options array keeps keys unique and adds the key to the key set. A new key is appended as the last entry. |
| State.PutInPlace | src/Dimbo/SevenZip/SevenZip.php:99 | Storing under a key already held at position i replaces that one entry where it stands. Every entry before and after it is unchanged. |
| State.Lookup | src/Dimbo/SevenZip/SevenZip.php:99 | Reading `$options[$k]` finds a value exactly when k is one of the keys, and what it finds is the entry stored under k. |
| State.LookupPut | src/Dimbo/SevenZip/SevenZip.php:99 | After a store, reading the stored key yields the new value, and reading any other key yields what it did before. |
| State.SetCommand | src/Dimbo/SevenZip/SevenZip.php:48-53 | Sets the command and changes no other field. |
| State.SetOutputFile | src/Dimbo/SevenZip/SevenZip.php:60-65 | Sets the output file and changes no other field. |
| State.SetSfxName | src/Dimbo/SevenZip/SevenZip.php:84-89 | Sets the sfx stub name and changes no other field. |
| State.AddInputFile | src/Dimbo/SevenZip/SevenZip.php:72-77 | Appends one input file at the end and keeps all earlier input files in place. No other field changes. |
| State.AddOption | src/Dimbo/SevenZip/SevenZip.php:97-102 | Stores the value under the key PHP derives from the name. An existing key keeps its position and the entry count. A new key adds one entry at the end. Keys stay unique, and no other field changes. |
| State.ClearParams | src/Dimbo/SevenZip/SevenZip.php:255-264 | Command, options, sfx name, output file and input files are all empty again. The result equals a freshly constructed builder with the same binary directory. |
| Assembly.AppendArg | src/Dimbo/SevenZip/SevenZip.php:104-115 | A PHP-empty argument (`""` or `"0"`) leaves the accumulator unchanged. Any other argument ends the result and keeps the accumulator as a prefix. One space goes between them exactly when the accumulator is non-empty and does not end in a space. |
| Assembly.AppendOneOption | src/Dimbo/SevenZip/SevenZip.php:117-130 | The option text is always appended with the separator rule. A present value follows it escaped, with no space in between. A `null` value leaves the bare option. |
| Assembly.AppendValues | src/Dimbo/SevenZip/SevenZip.php:147-153 | The inner `foreach` over a list value only appends: the accumulator stays a prefix. `Assembly.AppendValuesTokens` states exactly what it appends. |
| Assembly.AppendEntry | src/Dimbo/SevenZip/SevenZip.php:141-158 | One pass of the outer `foreach` only appends to the accumulator. `Assembly.AppendEntryTokens` states the exact tokens for each key and value kind. |
| Assembly.AppendEntries | src/Dimbo/SevenZip/SevenZip.php:141-158 | The outer `foreach` only appends to the accumulator. `Assembly.AppendEntriesTokens` states that it appends exactly the entries' tokens with the separator rule. |
| Assembly.FullPathToSfx | src/Dimbo/SevenZip/SevenZip.php:197-201 | The stub path is present exactly when the sfx name is not PHP-empty, and it is then the binary directory followed by the name. |
| Assembly.ConstructOptions | src/Dimbo/SevenZip/SevenZip.php:132-161 | A non-empty sfx name puts `-sfx` + binary directory + name at the start. With no options, the segment is just that switch, or empty when there is no sfx name. The full result is stated by `Assembly.ConstructOptionsTokens`, `Assembly.SfxFirst` and `Assembly.ConstructOptionsJoin`. |
| Assembly.EscapeAll | src/Dimbo/SevenZip/SevenZip.php:167-170 | There is one escaped entry per input file, in input order. |
| Assembly.ConstructInputFiles | src/Dimbo/SevenZip/SevenZip.php:163-173 | No input files give the empty string, and otherwise the segment starts with the first file escaped. `Assembly.InputFilesSegment` and `Assembly.AddInputFileSegment` state the rest. |
| Assembly.ValueTokens | src/Dimbo/SevenZip/SevenZip.php:147-153 | A list value of N strings yields exactly N tokens. Token i is the option name followed directly by the escaped i-th string. |
| Assembly.EntriesTokensConcat | src/Dimbo/SevenZip/SevenZip.php:141-158 | Entries are emitted in array order: the tokens of a concatenation of entries are the two token lists concatenated. |
| Assembly.AppendEntriesTokens | src/Dimbo/SevenZip/SevenZip.php:141-158 | The source's per-entry loop appends exactly the entries' declared tokens, in order, with the separator rule. |
| Assembly.ConstructOptionsTokens | src/Dimbo/SevenZip/SevenZip.php:132-161 | `constructOptions` is the sfx token (if any) followed by every entry's tokens, appended with the separator rule. |
| Assembly.SfxFirst | src/Dimbo/SevenZip/SevenZip.php:136-139 | With a non-empty sfx name, the options segment begins with `-sfx` + binary directory + name, unescaped. With an empty one, the segment holds only the entries' tokens. |
| Assembly.ConstructOptionsJoin | src/Dimbo/SevenZip/SevenZip.php:132-161 | When escaping quotes its result and the raw option data is clean, the options segment is its tokens joined by single spaces. It is empty exactly when there are no tokens. |
| Assembly.InputFilesSegment | src/Dimbo/SevenZip/SevenZip.php:163-173 | The input-file segment is empty exactly when there are no input files. Otherwise it is non-empty, does not end in a space, and is never skipped by `appendArg`. |
| Assembly.AddInputFileSegment | src/Dimbo/SevenZip/SevenZip.php:163-173 | Adding an input file appends its escaped form to the input-file segment after one space, or makes it the whole segment when it is the first file. |
| Assembly.OptionsSnoc | src/Dimbo/SevenZip/SevenZip.php:141-158 | One more entry at the end of the options array extends the options segment by exactly that entry's tokens, with the separator rule. |
| Assembly.AddOptionAppends | src/Dimbo/SevenZip/SevenZip.php:97-102 | An option with a new key adds its tokens at the end of the option tokens and of the options segment. |
| Assembly.AddOptionInPlace | src/Dimbo/SevenZip/SevenZip.php:97-102 | Overwriting the option at position i re-emits it at position i. The tokens of the entries before and after it are unchanged. |
| Assembly.ConstructArgs | src/Dimbo/SevenZip/SevenZip.php:175-184 | The command always opens the argument string. When the options segment and the output file are PHP-empty and there are no input files, the string is the command alone. `Assembly.ConstructArgsSpaced` states the whole result. |
| Assembly.ConstructArgsSpaced | src/Dimbo/SevenZip/SevenZip.php:175-184 | The argument string is the command followed by the non-PHP-empty segments (options, raw output file, input files), in that order, appended with the separator rule. |
| Assembly.ConstructArgsJoin | src/Dimbo/SevenZip/SevenZip.php:175-184 | For clean inputs, the argument string is the command, options segment, output file and input-file segment joined by single spaces. An absent segment contributes no text and no separator. |
| ExitCodes.CheckResultCode | src/Dimbo/SevenZip/SevenZip.php:229-253 | Codes ≤ 1 pass. Codes 2, 7, 8 and 255 fail with "Fatal error", "Command line error", "Not enough memory for operation" and "User stopped the process". Any other code > 1 fails with "Error code: " + its decimal text. Every error carries the code itself. |
| ExitCodes.GenericMessageDecodes | src/Dimbo/SevenZip/SevenZip.php:247-248 | The generic message starts with "Error code: ", and the rest reads back as the exit code. |
| ExitCodes.MessageDeterminesCode | src/Dimbo/SevenZip/SevenZip.php:229-253 | No two failing exit codes produce the same message. |
| Runner.FullPathToSevenZipExecutable | src/Dimbo/SevenZip/SevenZip.php:189-192 | The executable path is the binary directory followed by `7z.exe`. |
| Runner.CommandLine | src/Dimbo/SevenZip/SevenZip.php:268-269 | The command line starts with the escaped executable path and one space. The rest is exactly the argument string. |
| Runner.Run | src/Dimbo/SevenZip/SevenZip.php:266-278 | The executed command is the escaped executable path, one space, then the argument string. The result succeeds exactly when the code is ≤ 1. Success returns the code and leaves a freshly cleared builder. Failure raises `checkResultCode`'s error with the code and leaves the builder exactly as it was. |
| Runner.SuccessLeavesNoArgs | src/Dimbo/SevenZip/SevenZip.php:273-277 | After a successful run every field is empty, and the argument string is empty. |
| Runner.RetryRepeatsCommand | src/Dimbo/SevenZip/SevenZip.php:266-275 | Running again after a failed run issues exactly the same command line. |
| Scenarios.AddTwoFilesArgs | src/Dimbo/SevenZip/SevenZip.php:175-184 | `setCommand('a')`, `setOutputFile('out.7z')`, then two `addInputFile` calls give `"a out.7z " + esc("a.txt") + " " + esc("b.txt")` for any quoting escaper: the output file raw, the inputs escaped. |
| Scenarios.AddTwoFilesPosix | src/Dimbo/SevenZip/SevenZip.php:175-184 | With POSIX single-quote escaping, the same chain gives exactly `a out.7z 'a.txt' 'b.txt'`. |
| Scenarios.AddTwoFilesRun | src/Dimbo/SevenZip/SevenZip.php:266-278 | For that chain, exit code 0 returns 0 and clears the builder, while exit code 2 raises "Fatal error" with code 2 and keeps the state. |
| Scenarios.TwoOptionsScenario | src/Dimbo/SevenZip/SevenZip.php:132-161 | `addOption('-t7z')` then `addOption('-mx', '9')` give the options segment `-t7z -mx` + escaped `9`. |
| Scenarios.NumericNameScenario | src/Dimbo/SevenZip/SevenZip.php:141-146 | `addOption(5, '-y')` then `addOption('5', '-r')` share one array slot. The second call overwrites the first, and `-r` is emitted bare. |

## Left out

- Process execution (`exec`, Symfony `Process`): spawning, blocking and stdout/stderr capture belong to an external library. The exit code is a parameter of `Run`, and a `null` exit code is not modelled.
- The time-out of Symfony `Process` (60 seconds by default): when it fires, `exec` throws (SevenZip.php lines 208-209) before `checkResultCode` runs. The state is then kept and no code is returned. `Run` has no such outcome, because the exit code is its input.
- The PHP notice that comes with the `"Array"` text of an integer-keyed list value (`Assembly.PositionalText`): under an error handler that turns notices into exceptions, such as Laravel's, `constructOptions` throws there instead of returning. The model always returns the text.
- Logger calls in `exec`: these are output-only side effects with no influence on results.
- The meaning of `escapeshellarg`: it differs between POSIX and Windows. It is an uninterpreted parameter, and the only thing assumed of it is `Quotes`. No shell round-trip is claimed.
- The `__DIR__`-based binary directory in the constructor: the directory is an opaque string given to `State.New`.
- `SevenZipServiceProvider` and `SevenZipFacade`: framework registration with no logic of their own.
- PHP `null` for command and output file is modelled as `""`. Both behave the same under `strlen`, `empty()` and string concatenation.
- `clearParams` resetting `sfxName` to `[]` is modelled as `""`. Both are empty for `empty()`, so `-sfx` is not emitted either way.
- Option names other than integers and strings (floats, booleans, `null`) are not modelled, and neither is the truncation PHP applies to them as array keys. Integer names are not bounded to 64 bits in `Php.KeyArg`.
- Option values are `null`, a string, or a list of strings. Lists holding `null` or non-strings, and non-string scalar values, are not modelled.
- Assembly.ConstructOptionsJoin: states the single-space join form only when `Quotes(esc)` holds and the raw option pieces are clean (`PlainOptions`). For every other input the exact behaviour is `Assembly.ConstructOptionsTokens`.
- Assembly.ConstructArgsJoin: states the single-space join form only when `Quotes(esc)` holds, the option data is clean, and neither the command nor the output file ends in a space. For every other input the exact behaviour is `Assembly.ConstructArgsSpaced`.
