# xshe core in Dafny

xshe turns a TOML table of environment variables into a script that a shell
can `eval`. This project models two pure string-producing layers of it.
The two layers are independent of each other.

**The dialect renderer** (`src/shells.rs` and `src/shells/*.rs`).
- A configured value arrives as a sequence of parts. Each part is a literal,
  a shell variable, a shell command or a home lookup.
- Each dialect renders one part (`shell_format`) and quotes literal text
  (`single_quote`). It writes the set statement (`set_variable`) and the
  unset statement (`unset_variable`).
- `expand_value` concatenates the rendered parts.
- The trait with default bodies becomes the closed datatype
  `Shells.Behavior`. Bash and zsh use the POSIX-family defaults. Fish, xonsh
  and elvish dispatch to their own modules.
- Its partners are independent readers:
  - `PosixReading` and `FishReading` invert the renderers. They split a
    rendered value at the delimiters the renderer writes and give back the
    characters, variable references, command substitutions and home lookups
    of its parts. They take everything up to a closing `"` as one name, where
    a shell ends a name at the first character that cannot belong to one.
  - `Statements` parses every dialect's set and unset lines.
  - `Ambiguities` shows where xonsh and elvish renderings cannot be read back
    unambiguously:
    - xonsh writes variables and commands bare;
    - elvish puts a `'` inside `'…'` without escaping it, although a comment
      in `src/shells/elvish.rs` claims no escaping is needed;
    - elvish writes every home lookup as `$home`;
    - xonsh's set statement puts the rendered value inside `f"…"`, where a
      literal's `"` ends the string and its braces are evaluated;
    - elvish's set statement wraps the rendered value in `'…'` a second
      time, so a variable reference becomes plain text.

**The conversion driver** (`to_shell_source` in `src/convert.rs`).
- It walks the configured variables in insertion order and resolves per-shell
  tables through the shell's name with a `_` fallback.
- It escapes strings with a chain of seven replacements that turn TOML
  characters back into escape codes, then expands a leading tilde.
- It writes one `;`-terminated line per variable that applies to the shell.
  Its shell choice is the three-variant `Shell` of `src/cli.rs`.
- `TomlEscape` proves that the chain equals a single-pass escape, and that an
  unescape inverts it.
- `Convert.Plan` lists the statements the configuration asks for.
  `Convert.ReadScript` reads a written script back. `Convert.ScriptReads`
  proves that reading the script gives the plan, line for line and in order.

The renderer's test-case strings (the `TestCases` constants in the shell
files) are proved as lemmas in `Vectors`, at the renderer level. The driver's
expected scripts in `src/convert.rs` are proved in `ConvertVectors`, whole
script by whole script. The Rust tests trim the final newline; the model
states the full script, newline included.

`src/convert.rs` does not call the dialect renderer:
- it writes each value between double quotes after the TOML escape chain
  (`src/convert.rs:90-101`);
- it marks every array as a path (`src/convert.rs:56-60`).

## Model

| member | source | states |
|---|---|---|
| Shells.Name | src/shells.rs:80-92 | every shell's display name is a non-empty lower-case word |
| Shells.NameRoundTrip | src/shells.rs:80-92 | reading a shell's display name gives back that shell |
| Shells.NamesDistinct | src/shells.rs:80-92 | two shells with the same display name are the same shell |
| Shells.CreateBehavior | src/shells.rs:26-37 | each shell gets the behaviour of its own struct; dash and nu are exactly the shells without a modelled behaviour |
| Shells.DefaultSingleQuote | src/shells.rs:103-115 | the empty string quotes to the empty string; text without `'` is wrapped in one `'…'` |
| Shells.DefaultSpliceCount | src/shells.rs:103-115 | the default quoting adds exactly one `"'"` splice (two `"`) per `'` of the input and no other `"` |
| Shells.ExpandValueAppend | src/shells.rs:133-140 | rendering the empty sequence gives the empty string; rendering `p ++ q` is rendering `p` followed by rendering `q` |
| Shells.ZshRendersAsBash | src/shells/zsh.rs:5-7 | zsh renders every part, value, set and unset statement exactly as bash does |
| PosixReading.DefaultSingleQuoteRoundTrip | src/shells.rs:103-115 | read as POSIX quoting (`'…'` runs and `"'"` splices), the default quoting of `s` is exactly `s` |
| PosixReading.ReadExpandValue | src/shells.rs:95-102 | read back by a POSIX reader, a default rendering gives the characters, variable references, command substitutions and home lookups of its parts, in order |
| PosixReading.DefaultRenderingDistinguishes | src/shells.rs:133-140 | part sequences with different meanings, whose variable and user names hold no `"`, render to different text under the defaults |
| FishDialect.SingleQuote | src/shells/fish.rs:16-18 | the result is `'…'` around the backslash-escaped text, one character longer per `\` and per `'` |
| FishReading.SingleQuoteRoundTrip | src/shells/fish.rs:16-18 | read as a fish single-quoted string (`\\` and `\'` unescaped), the quoting of `s` is exactly `s` |
| FishReading.ReadExpandValue | src/shells/fish.rs:7-14 | a fish reader reads a fish rendering back into the meanings of its parts, in order |
| FishReading.FishRenderingDistinguishes | src/shells/fish.rs:6-18 | part sequences with different meanings, whose variable and user names hold no `"`, render to different fish text |
| Backslash.ChainIsSinglePass | src/shells/fish.rs:17 | replacing `\` first and `'` second equals one pass that puts a backslash before each `\` and `'` |
| Backslash.EscapeIdentity | src/shells/xonsh.rs:14-19 | the escape leaves a text unchanged exactly when it holds neither `\` nor `'` |
| Backslash.EscapeInjective | src/shells/xonsh.rs:14-19 | different texts escape differently |
| XonshDialect.SingleQuote | src/shells/xonsh.rs:14-19 | no quotes are added, and backslash-unescaping the result gives the input back |
| ElvishDialect.SingleQuote | src/shells/elvish.rs:15-19 | the result is the text unchanged between one `'` on each side, two characters longer |
| Statements.DefaultSetRoundTrip | src/shells.rs:116-126 | `export N=V` parses back to name N and value V unchanged, whatever the path flag |
| Statements.FishSetRoundTrip | src/shells/fish.rs:20-30 | `set -gx[ --path] N V` parses back to N, V unchanged and the path flag given |
| Statements.XonshSetRoundTrip | src/shells/xonsh.rs:21-34 | the xonsh assignment parses back to N and V, with `True` reading as "1"; the path flag is lost |
| Statements.ElvishSetRoundTrip | src/shells/elvish.rs:21-30 | `set-env N 'V'` parses back to N and V unchanged; the path flag is lost |
| Statements.SetVariableRoundTrip | src/shells.rs:116-126 | in every dialect the set statement parses back to its name and value; the path flag survives exactly in fish |
| Statements.UnsetVariableRoundTrip | src/shells.rs:127-132 | in every dialect the unset statement parses back as a removal of that name |
| Statements.XonshTrueExactlyForOne | src/shells/xonsh.rs:29-33 | xonsh writes `$N = True` if and only if the value text is "1" |
| Statements.PathFlagOnlyForFish | src/shells/elvish.rs:21-30 | outside fish, the set statement is the same with and without the path flag |
| Ambiguities.XonshPlainLiteral | src/shells/xonsh.rs:14-19 | a xonsh literal without `\` or `'` renders as the bare text |
| Ambiguities.XonshVariableAbsorbsText | src/shells/xonsh.rs:5-12 | a variable followed by plain text renders like one longer variable name, though the two mean different things |
| Ambiguities.XonshCommandClosesEarly | src/shells/xonsh.rs:9 | a command containing `)` renders like a shorter command followed by literal text |
| Ambiguities.ElvishLiteralsCollide | src/shells/elvish.rs:15-19 | two literals `a`, `b` render like the single literal `a''b`, a different text |
| Ambiguities.ElvishHomeIgnoresUser | src/shells/elvish.rs:11 | home lookups of any two users render alike, yet they mean the same only when the users are equal |
| Ambiguities.XonshQuoteEndsFString | src/shells/xonsh.rs:29-33 | a literal `a"c` is set as `$N = f"a"c"`: the `"` is written bare and closes the f-string after `a` |
| Ambiguities.XonshBracesReachFString | src/shells/xonsh.rs:29-33 | a literal `{t}` is set as `$N = f"{t}"`, where xonsh evaluates `t` |
| Ambiguities.ElvishSetQuotesVariable | src/shells/elvish.rs:29 | a variable reference `v` is set as `set-env N '$v'`, the reference inside single quotes |
| Ambiguities.ElvishSetQuotesLiteral | src/shells/elvish.rs:29 | a literal `t` is set as `set-env N ''t''`, quoted twice |
| Shells.SingleQuote | src/shells.rs:103-115 | each shell's literal quoting: the defaults for bash and zsh, the dialect's own for the others; stated by `Shells.DefaultSingleQuote`, `PosixReading.DefaultSingleQuoteRoundTrip`, `FishReading.SingleQuoteRoundTrip` and the dialects' `SingleQuote` |
| Shells.ShellFormat | src/shells.rs:95-102 | one part rendered per shell; what a default or fish rendering denotes is stated by `PosixReading.ReadExpandValue` and `FishReading.ReadExpandValue` |
| Shells.SetVariable | src/shells.rs:116-126 | each shell's set statement; `Statements.SetVariableRoundTrip` states that it parses back to its name and value |
| Shells.UnsetVariable | src/shells.rs:127-132 | each shell's unset statement; `Statements.UnsetVariableRoundTrip` states that it parses back as a removal of the name |
| Shells.ExpandValue | src/shells.rs:133-140 | the parts rendered in order; `Shells.ExpandValueAppend` states that it is a homomorphism and the readers state what it denotes |
| FishDialect.ShellFormat | src/shells/fish.rs:7-14 | fish's part rendering; stated by `FishReading.ReadExpandValue` |
| FishDialect.SetVariable | src/shells/fish.rs:20-30 | `set -gx`, `--path` for a path, the name and the value; stated by `Statements.FishSetRoundTrip` |
| FishDialect.UnsetVariable | src/shells/fish.rs:32-37 | `set -ge` and the name; stated by `Statements.UnsetVariableRoundTrip` |
| XonshDialect.ShellFormat | src/shells/xonsh.rs:5-12 | xonsh's part rendering, references bare; its ambiguities are stated by `Ambiguities.XonshVariableAbsorbsText` and `Ambiguities.XonshCommandClosesEarly` |
| XonshDialect.SetVariable | src/shells/xonsh.rs:21-34 | `$N = True` for "1", `$N = f"V"` otherwise; stated by `Statements.XonshSetRoundTrip` and `Statements.XonshTrueExactlyForOne` |
| XonshDialect.UnsetVariable | src/shells/xonsh.rs:36-41 | `del $N`; stated by `Statements.UnsetVariableRoundTrip` |
| ElvishDialect.ShellFormat | src/shells/elvish.rs:6-13 | elvish's part rendering; its ambiguities are stated by `Ambiguities.ElvishLiteralsCollide` and `Ambiguities.ElvishHomeIgnoresUser` |
| ElvishDialect.SetVariable | src/shells/elvish.rs:21-30 | `set-env N 'V'`, the path flag ignored; stated by `Statements.ElvishSetRoundTrip` and `Statements.PathFlagOnlyForFish` |
| ElvishDialect.UnsetVariable | src/shells/elvish.rs:32-36 | `del-env N`; stated by `Statements.UnsetVariableRoundTrip` |
| Vectors.ZshLine | src/shells/zsh.rs:5-7 | a zsh set line for rendered parts equals the bash one |
| Vectors.BashConvertString | src/shells/bash.rs:9 | `[Literal "Bar"]` set as FOO gives `export FOO='Bar'` |
| Vectors.BashConvertSet | src/shells/bash.rs:14 | setting "1" gives `export HOMEBREW_NO_ANALYTICS=1` |
| Vectors.BashConvertUnset | src/shells/bash.rs:15 | unsetting gives `unset HOMEBREW_NO_ANALYTICS` |
| Vectors.BashConvertSpecific | src/shells/bash.rs:16 | `Do people read test cases?` set as ONLY_FOR_BASH gives `export ONLY_FOR_BASH='Do people read test cases?'` |
| Vectors.BashConvertSpecificOther | src/shells/bash.rs:17-18 | `[ACCESS DENIED]` set as SOME_VARIABLE gives `export SOME_VARIABLE='[ACCESS DENIED]'`, the line both constants expect |
| Vectors.BashShellVariablesInline | src/shells/bash.rs:19 | a variable renders as `"$HOME"` |
| Vectors.BashShellVariablesBlock | src/shells/bash.rs:20 | `[$HOME, less]` renders as `"$HOME"'less'` |
| Vectors.BashShellCommands | src/shells/bash.rs:21 | a command renders as `$(eval 'which micro')` |
| Vectors.BashShellHomeTilde | src/shells/bash.rs:22 | a home lookup renders as `$(eval echo "~superatomic")` |
| Vectors.BashCharacterEscapes | src/shells/bash.rs:23-28 | both expected lines, including the quote splices inside the quoted command |
| Vectors.BashEscapingQuotes | src/shells/bash.rs:29 | `I 'love' books` renders with a `"'"` splice for each quote |
| Vectors.ZshConvertString | src/shells/zsh.rs:10 | `[Literal "Bar"]` set as FOO gives `export FOO='Bar'` |
| Vectors.ZshConvertSet | src/shells/zsh.rs:15 | setting "1" gives `export HOMEBREW_NO_ANALYTICS=1` |
| Vectors.ZshConvertUnset | src/shells/zsh.rs:16 | unsetting gives `unset HOMEBREW_NO_ANALYTICS` |
| Vectors.ZshConvertSpecificOther | src/shells/zsh.rs:18 | `[ACCESS DENIED]` set as SOME_VARIABLE gives `export SOME_VARIABLE='[ACCESS DENIED]'` |
| Vectors.ZshConvertSpecificOtherAlt | src/shells/zsh.rs:19-24 | both expected lines: SOME_VARIABLE as above and `export ANOTHER_VARIABLE='Zzz'` |
| Vectors.ZshShellVariablesInline | src/shells/zsh.rs:25 | a variable renders as `"$HOME"` |
| Vectors.ZshShellVariablesBlock | src/shells/zsh.rs:26 | `[$HOME, less]` renders as `"$HOME"'less'` |
| Vectors.ZshShellCommands | src/shells/zsh.rs:27 | a command renders as `$(eval 'which micro')` |
| Vectors.ZshShellHomeTilde | src/shells/zsh.rs:28 | a home lookup renders as `$(eval echo "~superatomic")` |
| Vectors.ZshCharacterEscapes | src/shells/zsh.rs:29-34 | both expected lines, as for bash |
| Vectors.ZshEscapingQuotes | src/shells/zsh.rs:35 | `I 'love' books` renders with a `"'"` splice for each quote |
| Vectors.FishConvertString | src/shells/fish.rs:41 | `[Literal "Bar"]` set as FOO gives `set -gx FOO 'Bar'` |
| Vectors.FishConvertSet | src/shells/fish.rs:46 | setting "1" gives `set -gx HOMEBREW_NO_ANALYTICS 1` |
| Vectors.FishConvertUnset | src/shells/fish.rs:47 | unsetting gives `set -ge HOMEBREW_NO_ANALYTICS` |
| Vectors.FishSpecificOther | src/shells/fish.rs:49-50 | `you're pretty` renders as `'you\'re pretty'` |
| Vectors.FishShellVariablesInline | src/shells/fish.rs:51 | a variable renders as `"$HOME"` |
| Vectors.FishShellVariablesBlock | src/shells/fish.rs:52 | `[$HOME, less]` renders as `"$HOME"'less'` |
| Vectors.FishShellCommands | src/shells/fish.rs:53 | a command renders as `(eval 'which micro')` |
| Vectors.FishShellHomeTilde | src/shells/fish.rs:54 | a home lookup renders as `(eval echo "~superatomic")` |
| Vectors.FishCharacterEscapes | src/shells/fish.rs:55-58 | both expected lines, with `\'` inside the quoted command and `\\` for the backslash |
| Vectors.FishEscapingQuotes | src/shells/fish.rs:59 | `I 'love' books` renders as `'I \'love\' books'` |
| Cli.Name | src/cli.rs:40-46 | each shell's name is a non-empty lower-case word other than `_` |
| Cli.FromName | src/cli.rs:40-46 | a name reads as a shell exactly when it is `bash`, `zsh` or `fish` |
| Cli.FromNameName | src/cli.rs:40-46 | reading a shell's name gives that shell |
| Cli.NameFromName | src/cli.rs:40-46 | every name that reads as a shell is that shell's name |
| Cli.NamesDistinct | src/cli.rs:40-46 | two shells have the same name if and only if they are the same shell |
| IndexMaps.Get | src/convert.rs:128 | lookup finds nothing exactly when the key is absent, and what it finds is stored under the key |
| IndexMaps.GetFirst | src/convert.rs:128 | lookup returns the value of the first entry with the key |
| IndexMaps.GetEntry | src/convert.rs:128 | with distinct keys, lookup of an entry's key returns that entry's value |
| Convert.ValueForSpecific | src/convert.rs:121-129 | the result is absent exactly when neither the shell's name nor `_` is a key; otherwise it is stored under one of them |
| Convert.Resolve | src/convert.rs:34-42 | a general value applies to every shell and a table goes through `value_for_specific`; `Convert.EntryOutput` states that a variable without a value writes nothing |
| Convert.ValueForSpecificOwn | src/convert.rs:121-129 | an entry for the shell's own name wins |
| Convert.ValueForSpecificFallback | src/convert.rs:121-129 | without an entry for the shell, the `_` entry is used |
| Convert.TildeExpand | src/convert.rs:146-147 | `~` alone becomes the home directory and `~/…` the home directory followed by `/…`; `~user`, text not starting with `~` and anything under an unknown home are kept |
| Convert.TildeExpandHome | src/convert.rs:146-147 | with a known home directory, `~t` becomes the home directory followed by `t` exactly when `t` is empty or starts with `/`, and stays `~t` otherwise |
| Convert.ExpandValue | src/convert.rs:131-148 | the escape chain, then tilde expansion; stated by `Convert.ExpandValueIsEscape`, `Convert.ExpandValueUnescapes` and `Convert.ExpandValueLineFree` |
| Convert.ExpandValueIsEscape | src/convert.rs:131-148 | a value not starting with `~` is only escaped |
| Convert.ExpandValueUnescapes | src/convert.rs:131-148 | for a value not starting with `~`, unescaping the expanded value gives the configured value back |
| Convert.ExpandValueLineFree | src/convert.rs:137-144 | with a one-line home directory, an expanded value holds no newline |
| Convert.ExpandAll | src/convert.rs:56-58 | each array item is expanded on its own, in order |
| Convert.EntryOutput | src/convert.rs:32-63 | a variable produces no text exactly when the shell has no value for it |
| Convert.EntryOutputEndsLine | src/convert.rs:90-117 | any text written for a variable ends with `;` and a newline |
| Convert.SetLine | src/convert.rs:73-103 | the set line of each shell; stated by `Convert.SetLineEnds`, `Convert.LineReads` and `Convert.PathFlagOnlyForFish` |
| Convert.UnsetLine | src/convert.rs:105-118 | the unset line of each shell; stated by `Convert.UnsetLineEnds` and `Convert.LineReads` |
| Convert.SetLineEnds | src/convert.rs:90-101 | every set line ends with `;` and a newline |
| Convert.UnsetLineEnds | src/convert.rs:110-117 | every unset line ends with `;` and a newline |
| Convert.EntryOutputStatement | src/convert.rs:44-63 | the text for a variable is the line of the statement it asks for: unset for `false`, "1" for `true`, the expanded string, or the `:`-joined items marked as a path |
| Convert.Script | src/convert.rs:28-66 | the variables' texts in configuration order; stated by `Convert.ScriptAppend`, `Convert.ScriptReads` and `Convert.ScriptLineCount` |
| Convert.ToShellSource | src/convert.rs:28-66 | the output is the variables' texts concatenated in configuration order; with identifier names and a one-line home it reads back as the plan |
| Convert.ScriptAppend | src/convert.rs:31-65 | the script of two runs of variables is the first run's script followed by the second's |
| Convert.EntryStatement | src/convert.rs:34-61 | the statement one variable asks for; `Convert.EntryOutputStatement` states that its line is what the driver writes |
| Convert.Plan | src/convert.rs:32-42 | the plan has at most one statement per variable |
| Convert.PlanNames | src/convert.rs:32-64 | every planned statement names a configured variable |
| Convert.LineReads | src/convert.rs:90-117 | a writable statement's line is one line plus a newline and parses back as that statement |
| Convert.ScriptReads | src/convert.rs:28-66 | reading the script back gives exactly the planned statements, in configuration order, skipping variables without a value |
| Convert.ScriptLineCount | src/convert.rs:28-66 | the script has one line per planned statement |
| Convert.PathFlagOnlyForFish | src/convert.rs:94-101 | `--path` changes the line for fish and nothing for bash and zsh |
| Convert.ArrayItemsRecoverable | src/convert.rs:56-60 | for a non-empty array whose items hold no `:` and do not start with `~`: the statement is marked as a path exactly for fish, and splitting its value at `:` gives one piece per item that unescapes to that item |
| Convert.ArrayColonCollides | src/convert.rs:56-60 | an item `a:b` is written exactly like the two items `a` and `b` |
| Convert.ArrayEmptyCollides | src/convert.rs:56-60 | the empty array is written exactly like an array of one empty item |
| Convert.EscapeKeepsColonOut | src/convert.rs:137-144 | the escape introduces no `:` |
| TomlEscape.Specials | src/convert.rs:137-144 | a text has no escapable character exactly when its count is zero |
| TomlEscape.Escape | src/convert.rs:137-144 | the escape grows the text by one character per escapable character and leaves no raw control character |
| TomlEscape.ChainIsSinglePass | src/convert.rs:137-144 | the seven replacements, backslash first, equal the single-pass escape |
| TomlEscape.UnescapeEscape | src/convert.rs:137-144 | unescaping undoes the escape |
| TomlEscape.EscapeUnescape | src/convert.rs:137-144 | whatever unescapes escapes back to the same text |
| TomlEscape.UnescapeIff | src/convert.rs:137-144 | unescaping `t` gives `s` if and only if escaping `s` gives `t` |
| TomlEscape.EscapeInjective | src/convert.rs:137-144 | different texts escape differently |
| TomlEscape.EscapeIdentity | src/convert.rs:137-144 | the escape leaves a text unchanged exactly when it has none of the seven characters |
| ConvertVectors.ConvertString | src/convert.rs:195-209 | `FOO = "Bar"` gives `export FOO="Bar";` for bash and zsh and `set -gx FOO "Bar";` for fish |
| ConvertVectors.BashConvertPath | src/convert.rs:212-232 | the PATH array gives one `export PATH="…";` line with the items joined by `:` |
| ConvertVectors.ZshConvertPath | src/convert.rs:212-232 | the same line as bash for zsh |
| ConvertVectors.FishConvertPath | src/convert.rs:212-232 | the PATH array gives `set -gx --path PATH "…";` |
| ConvertVectors.BashConvertSpecific | src/convert.rs:235-251 | a bash-only table gives its line for bash |
| ConvertVectors.ZshConvertSpecific | src/convert.rs:235-251 | a bash-only table gives nothing for zsh |
| ConvertVectors.FishConvertSpecific | src/convert.rs:235-251 | a bash-only table gives nothing for fish |
| ConvertVectors.BashConvertSpecificOther | src/convert.rs:254-272 | without a bash entry, bash gets the `_` value |
| ConvertVectors.ZshConvertSpecificOther | src/convert.rs:254-272 | without a zsh entry, zsh gets the `_` value |
| ConvertVectors.FishConvertSpecificOther | src/convert.rs:254-272 | fish gets its own entry over `_` |
| ConvertVectors.BashConvertSpecificOtherAlt | src/convert.rs:275-303 | of two tables bash gets one line, the second table having no value for it |
| ConvertVectors.ZshConvertSpecificOtherAlt | src/convert.rs:275-303 | zsh gets both lines, in configuration order |
| ConvertVectors.FishConvertSpecificOtherAlt | src/convert.rs:275-303 | fish gets only its own entry of the first table |
| ConvertVectors.BashConvertEverything | src/convert.rs:306-337 | the mixed configuration gives bash the string and the `_` value |
| ConvertVectors.ZshConvertEverything | src/convert.rs:306-337 | zsh gets the string and its own non-ASCII entry |
| ConvertVectors.FishConvertEverything | src/convert.rs:306-337 | fish gets the string and its array as a `--path` line joined by `:` |

## Left out

- Dash and nu: `Shells.CreateBehavior` returns no behaviour for them. Their bodies are not part of this model.
- `parse_value`: the parser is not part of this model. The renderer takes the parsed sequence of parts as input, where `expand_value` takes the unparsed string.
- Trace logging in `set_variable`, `unset_variable` and the driver is left out. It does not affect any output.
- `shellexpand::tilde` is foreign code. `Convert.TildeExpand` models its documented Unix behaviour with the home directory as a parameter (None when unknown). Only `~` and `~/…` expand; `~user` is kept.
- Convert.ExpandValueUnescapes: holds only for values that do not start with `~`. For other values the home directory substitutes arbitrary text.
- `src/config_file.rs` is not part of this model. Its value type differs from the one `src/convert.rs` matches on. The model follows `src/convert.rs`: `Set`, `String` and `Array`.
- Command-line parsing beyond the `Shell` enum, and `build.rs`, are left out. Neither affects the conversion.
- `IndexMap` internals are left out. A table is a sequence of (key, value) pairs in insertion order, and `IndexMaps.Get` returns the first match.
- `src/convert/tests.rs` drives a newer driver that is not part of this model, so it is not modelled.
- The `CONVERT_ARRAY`, `CONVERT_PATH` and `CONVERT_ALL` constants are not stated. They need that driver's array join feeding the renderer.
- The empty `CONVERT_SPECIFIC` constants of zsh (`src/shells/zsh.rs:17`) and fish (`src/shells/fish.rs:48`) are not stated. They say that the shell gets no line at all, which needs that driver's table resolution. The non-empty `CONVERT_SPECIFIC` and `CONVERT_SPECIFIC_OTHER[_ALT]` constants are stated at the renderer level.
- The zsh `CONVERT_ALL` constant at `src/shells/zsh.rs:39` is left out. Its non-ASCII text is mis-encoded in the file.
- Convert.Plan: records the path flag only for fish, because the bash and zsh lines do not write it.
- Convert.ScriptReads, Convert.ScriptLineCount and Convert.ToShellSource: the read-back part assumes identifier names and a one-line home directory. Other names, such as one containing `=` or a space, make lines ambiguous. The driver does not check names.
- PosixReading.ReadExpandValue and FishReading.ReadExpandValue: assume variable and user names without `"`. Such a name ends the surrounding double quotes, and the renderers do not check for it. They state what the renderer wrote, split at its delimiters, and not what a shell makes of it (see the line on names below).
- PosixReading.DefaultRenderingDistinguishes: holds only for part sequences whose variable and user names hold no `"`, for the same reason as `ReadExpandValue`.
- FishReading.FishRenderingDistinguishes: holds only for part sequences whose variable and user names hold no `"`, for the same reason as `ReadExpandValue`.
- Convert.ArrayItemsRecoverable: holds only for non-empty arrays whose items hold no `:` and do not start with `~`. `Convert.ArrayColonCollides` and `Convert.ArrayEmptyCollides` show that the `:` join at `src/convert.rs:59` mixes other arrays up, and a leading `~` is replaced by the home directory.
- Variable names other than identifiers, and user names holding `/`, `$` or `"`: the renderers write them as they are, and a shell reads the result differently. `"$HOME/x"` is `$HOME` followed by `/x`, and `"$a$(id)"` runs `id`. The readers take the whole text up to the closing `"` as the name, so the readers' lemmas do not promise that the shell expands the named variable or user.
