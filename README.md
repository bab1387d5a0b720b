# GPTtrace, modelled in Dafny

GPTtrace asks a large language model to write eBPF tracing commands and then runs them.
Requests go either to a set of bcc command-line tools (through the model's function-calling
interface) or to `bpftrace`. This project models the logic between the model and the shell:
- how a function call's JSON arguments become a command vector (the three bcc front ends and
  `construct_command` for bpftrace);
- how a reply is cleaned into a shell command;
- the two retry strategies (the five-attempt loop of the top-level `GPTtrace.py` and the
  recursive `execute` of the package);
- how a streamed chat reply is cut into deltas;
- the `key=value` configuration file.

The model's replies, the shell's results, the environment and the typed API key are inputs.
Results that come one per step are given as oracle sequences. Python exceptions are the
error half of a `Result`.

Modules, one per component:
- `Values`: JSON values, command tokens, exceptions.
- `Text`: the Python `str` operations used.
- `Schema`: function-call schemas and their lookup.
- `ArgBuilder`: the argument loop the three bcc front ends share.
- `GptCmd`: `gpttrace/cmd.py`.
- `Command`: `command.py`.
- `BccTools`: `bcc_tools.py`.
- `Bpftrace`: `gpttrace/bpftrace.py`.
- `ReplyCleanup`: `make_executable_command`, which `GPTtrace.py` and `main.py` define
  identically.
- `TraceLoop`: the `execute` loop of `GPTtrace.py`.
- `StreamChat`: `generate_result` of `main.py`.
- `ConfigFile`: `gpttrace/config.py`.
- `Execute`: `gpttrace/execute.py` and its call in `gpttrace/GPTtrace.py`.

## Model

| member | source | states |
|---|---|---|
| Schema.GetSpecifyFunc | gpttrace/cmd.py:122-133 | the result is the first schema whose name is the one asked for, and None exactly when no schema has that name (command.py:92-96 and bcc_tools.py:52-56 are the same function) |
| Schema.StopIndex | gpttrace/cmd.py:21-25 | the selection loop stops at the first schema that has no `"name"` entry or has the requested name; every schema before it has a different name |
| Schema.SelectSchema | gpttrace/cmd.py:19-28 | selection gives the first matching predefined schema, the generated schema when none matches, raises on a schema without a `"name"` entry met first, and passes over one whose name is not a string |
| Schema.SelectAgreesWithLookup | command.py:7-16 | when every schema has a `"name"` entry, the selection loop finds the same schema as `get_specify_func`, and falls back exactly when that returns None |
| ArgBuilder.BuildArgs | gpttrace/cmd.py:54-69 | the imperative argument loop computes the left fold over the entries in enumeration order, including the exception it stops at |
| ArgBuilder.FoldStopsAtError | gpttrace/cmd.py:57-61 | once an entry raises, the later entries do not change the outcome |
| ArgBuilder.FoldFlags | gpttrace/cmd.py:57-69 | the loop succeeds exactly when no entry raises, and then the flags are every entry's tokens concatenated in enumeration order |
| ArgBuilder.FoldFirstError | gpttrace/cmd.py:57-61 | the exception the loop raises is that of the first entry that raises, with every entry before it fine |
| ArgBuilder.FoldLastCapture | gpttrace/cmd.py:66-67 | positional capture is last-wins: the value kept is that of the last captured entry |
| ArgBuilder.FoldNoCapture | gpttrace/cmd.py:56-56 | without a captured entry the positional value stays None |
| ArgBuilder.FlagsAround | gpttrace/cmd.py:57-69 | the flags of entry `i` sit between those of the entries before and after it |
| ArgBuilder.BooleanIsBareFlag | gpttrace/cmd.py:68-69 | a JSON boolean, true or false, adds exactly `--name` and is never captured |
| ArgBuilder.ValueFlag | gpttrace/cmd.py:61-65 | a non-positional, non-boolean entry adds `--name` then its value: bare for `integer`/`float`, in double quotes otherwise |
| ArgBuilder.Assemble | gpttrace/cmd.py:54-71 | the vector is `sudo`, the command, the flags in order, then the captured value when it is not None |
| ArgBuilder.Stringify | gpttrace/cmd.py:72-72 | `str()` is applied element by element and keeps the length |
| ArgBuilder.StringifiedLayout | gpttrace/cmd.py:70-72 | the converted vector is `sudo`, the command, the flags, and the rendered positional value last |
| GptCmd.IsPositionalArg | gpttrace/cmd.py:136-228 | as written: false for a command not in the table, a KeyError for every listed command |
| GptCmd.IsPositionalArgIntended | gpttrace/cmd.py:226-228 | with the intended lookup: true exactly when the command is listed and the argument is one of its positional parameters |
| GptCmd.ExecCmd | gpttrace/cmd.py:46-72 | the vector built before `subprocess.run`, or the exception raised on the way, as the fold and layout give it |
| GptCmd.ExecCmdIntended | gpttrace/cmd.py:46-72 | the same with the intended positional lookup |
| GptCmd.NoPositionalAsWritten | gpttrace/cmd.py:56-71 | as written, a successful build never has a positional token |
| GptCmd.ListedCommandRaises | gpttrace/cmd.py:226-227 | as written, a listed command raises exactly when some argument is not a boolean |
| GptCmd.ProfileScenario | gpttrace/cmd.py:57-72 | `profile-bpfcc` with a duration and a verbose flag raises as written, and builds `--verbose` with the captured 5 as intended |
| Command.IsPositionalArg | command.py:98-155 | true exactly when the command is in the table and the argument is one of its positional parameters |
| Command.ExecCmd | command.py:33-60 | the vector built before `subprocess.run`, or the exception raised, as the fold and layout give it |
| Command.PositionalIsLast | command.py:53-58 | a positional entry adds no flag, and the last one captured is the final token, rendered and unquoted |
| Command.ProfileScenario | command.py:41-59 | `profile-bpfcc` with `duration` 5 and `verbose` true gives `["sudo", "profile-bpfcc", "--verbose", "5"]` |
| Command.ParseSuggestions | command.py:83-83 | the suggestion list joined with `", "` gives back the reply without its brackets, and no element contains the separator |
| Command.SuggestionExample | command.py:83-83 | the reply `[a, b]` gives `["a", "b"]` |
| BccTools.IsPositionalArg | bcc_tools.py:58-62 | only `duration` of `profile-bpfcc` and `pattern` of `stackcount-bpfcc` are positional |
| BccTools.BuildCommand | bcc_tools.py:20-40 | the inline build succeeds exactly when the fold does and then gives the assembled vector, without `str()` conversion |
| BccTools.Display | bcc_tools.py:41-41 | the `" ".join` echo succeeds exactly when every element is a string |
| BccTools.DisplayNeedsStringPositional | bcc_tools.py:39-41 | the echo succeeds exactly when nothing was captured or the captured value is a JSON string |
| BccTools.ProfileScenario | bcc_tools.py:20-41 | `profile-bpfcc` with a numeric duration builds a vector whose echo raises |
| Bpftrace.IncludePairsAt | gpttrace/bpftrace.py:130-132 | the include tokens alternate `-I` and the directories, in order |
| Bpftrace.Segment | gpttrace/bpftrace.py:118-142 | an option adds nothing when its key is absent, its flag and raw value for a string option, its flag only when truthy for a boolean one, and one `-I` pair per directory |
| Bpftrace.ConstructCommand | gpttrace/bpftrace.py:116-144 | the imperative builder gives the options' contributions in the fixed option order, or the exception of a non-iterable `includeDir` |
| Bpftrace.ConstructDebug | gpttrace/bpftrace.py:124-127 | the debug flags continue the command correctly |
| Bpftrace.ConstructRest | gpttrace/bpftrace.py:128-132 | the program and include directories continue the command correctly, with the loop over the directories |
| Bpftrace.ConstructFlags | gpttrace/bpftrace.py:133-144 | the trailing flags finish the command correctly |
| Bpftrace.IncludeRaises | gpttrace/bpftrace.py:130-131 | an `includeDir` that cannot be iterated makes the whole construction raise |
| Bpftrace.EmitStopsAtError | gpttrace/bpftrace.py:116-144 | once an option raises, later options do not change the outcome |
| Bpftrace.IncludePairsSnoc | gpttrace/bpftrace.py:131-132 | one more directory adds one `-I` pair at the end |
| Bpftrace.EmitAppend | gpttrace/bpftrace.py:116-144 | splitting the option list splits the command: earlier options' tokens come first |
| Bpftrace.EmitOkIff | gpttrace/bpftrace.py:116-144 | the construction succeeds exactly when every option's contribution does |
| Bpftrace.ConstructRaisesIff | gpttrace/bpftrace.py:130-132 | the construction raises exactly when `includeDir` is present and not iterable |
| Bpftrace.EmitIgnoresKey | gpttrace/bpftrace.py:116-144 | removing a key that no option reads leaves the command unchanged |
| Bpftrace.UnknownKeysIgnored | gpttrace/bpftrace.py:174-180 | `timeout`, `continue` and unknown keys add no tokens |
| Bpftrace.EmptyOperation | gpttrace/bpftrace.py:117-117 | an empty operation builds an empty option list |
| Bpftrace.RunBpftrace | gpttrace/bpftrace.py:169-185 | a plain reply is returned as it is; a function call gives `sudo`, the tool and the options, a timeout of 20 unless the call sets a truthy one, and the `continue` message in place of an empty stderr; a construction error propagates, and a token that is not a str makes the echo's `" ".join` raise (gpttrace/bpftrace.py:82) |
| Bpftrace.ConstructExample | gpttrace/bpftrace.py:194-207 | the test operation, with its full `printf` program, gives `-B`, `-f`, `-o`, `-e` and two `-I` pairs in that order (the operation is a map, so the order the test writes its keys in is not represented) |
| Bpftrace.NumericProgramNotJoinable | gpttrace/bpftrace.py:82-82 | a `program` that is a JSON number is put in the vector unconverted, and the vector is then not joinable |
| ReplyCleanup.MakeExecutableCommand | GPTtrace.py:158-175 | the cleaned command is a contiguous piece of the reply, no longer than it, and never contains `User: ` (main.py:70-81 is the same function) |
| ReplyCleanup.CleanupIsInfix | GPTtrace.py:165-174 | each clean-up step keeps a contiguous piece of the reply |
| ReplyCleanup.UnwrappedIsInfix | GPTtrace.py:165-172 | dropping edge newlines and backticks keeps a contiguous piece |
| ReplyCleanup.StripIsInfix | GPTtrace.py:173-173 | `strip()` keeps a contiguous piece |
| ReplyCleanup.CleanReplyUnchanged | main.py:70-81 | a reply with nothing to remove comes back unchanged |
| ReplyCleanup.FencedCommand | GPTtrace.py:165-174 | a newline- and backtick-fenced `ls` becomes `ls` |
| ReplyCleanup.SpacedBackticks | GPTtrace.py:169-173 | backticks behind spaces survive, because stripping comes after the backtick checks |
| Text.Split | gpttrace/config.py:89-89 | `split` gives at least one piece |
| Text.SplitJoin | command.py:83-83 | joining the pieces of a split with the separator gives back the string |
| Text.SplitPiecesAvoidSeparator | command.py:83-83 | no piece of a split contains the separator |
| Text.SplitCharCount | gpttrace/config.py:89-89 | splitting on one character gives one more piece than the character occurs |
| Text.BeforeFirst | GPTtrace.py:174-174 | `split(sep)[0]` is a prefix that does not contain the separator |
| TraceLoop.Commands | GPTtrace.py:228-245 | five commands: the cleaned first reply, then the cleaned replies to the fix prompts |
| TraceLoop.ExecuteLoop | GPTtrace.py:231-255 | the loop's success flag, shell lines and fix prompts are those of the attempt specification, and the exceeded message is printed exactly when no attempt succeeded |
| TraceLoop.SucceededAttempt | GPTtrace.py:250-252 | a zero return code ends the loop with success after this attempt |
| TraceLoop.FailedAttempt | GPTtrace.py:236-249 | a non-zero return code records the command and its stderr and goes on to the next attempt |
| TraceLoop.NoAttemptLeft | GPTtrace.py:233-233 | after five attempts the loop ends without success |
| TraceLoop.ShellLinesAt | GPTtrace.py:235-235 | shell line `j` is `sudo`, command `j` and the stderr redirection |
| TraceLoop.PromptsAt | GPTtrace.py:243-244 | fix prompt `j` embeds the stderr of failed attempt `j` |
| TraceLoop.CommandsAt | GPTtrace.py:245-245 | attempt `j + 1` runs the cleaned reply to the fix prompt of attempt `j` |
| TraceLoop.LoopFromCounts | GPTtrace.py:233-252 | the first zero return code ends the loop, with one error sent back per failed attempt before it |
| TraceLoop.LoopFromErrors | GPTtrace.py:236-244 | every error sent back comes from a failed attempt, in order |
| TraceLoop.LoopFromCommands | GPTtrace.py:234-235 | attempts run the commands in order |
| TraceLoop.LoopFromStart | GPTtrace.py:231-255 | at most five attempts; success exactly when one of the first five return codes is zero, stopping at the first; the stderr of each failed attempt, and only those, goes back |
| TraceLoop.LoopOutcome | GPTtrace.py:222-255 | the same for the cleaned replies: attempt `j` runs command `j` of the reply sequence |
| TraceLoop.ContinueGuardAlwaysHolds | GPTtrace.py:248-249 | no command starts with both `bpftrace` and `sudo`, so the `continue` is always taken, and as the last statement it changes nothing |
| StreamChat.Delta | main.py:91-91 | the delta is what the message adds past the previous one's length, and empty when the message is not longer |
| StreamChat.GenerateResult | main.py:84-98 | the result is the concatenated deltas, and the echo is the result and a newline only with `print_out` |
| StreamChat.GrowingGivesLast | main.py:86-98 | when each message extends the previous one, the result is the last message |
| StreamChat.ShrinkingAddsNothing | main.py:91-91 | a message no longer than the previous one adds nothing |
| ConfigFile.Get | gpttrace/config.py:92-103 | a non-empty environment value first, then a non-empty stored value, otherwise a missing-key error |
| ConfigFile.Config.constructor | gpttrace/config.py:35-42 | a new configuration has no entries and no file yet |
| ConfigFile.Config.Write | gpttrace/config.py:72-80 | the file becomes the `key=value` lines of the entries in order, and the entries are unchanged |
| ConfigFile.Config.Read | gpttrace/config.py:82-90 | the entries become those read from the file's lines, or a malformed line raises and the entries are those assigned before it |
| ConfigFile.ReadPrefixOfRead | gpttrace/config.py:82-90 | when the whole file reads, the entries left by the loop are the dictionary it yields |
| ConfigFile.MalformedLineStops | gpttrace/config.py:82-90 | a malformed line after lines that read raises, and the entries are those lines' assignments whatever follows |
| ConfigFile.Config.Init | gpttrace/config.py:44-60 | an existing file is read, missing defaults are added, and the file is rewritten only if something was added; a missing file is created from the defaults, with the typed API key only when neither the defaults nor the environment have one; when reading raises, the file is unchanged and the entries are those read before the malformed line |
| ConfigFile.SerializeSnoc | gpttrace/config.py:77-79 | one more entry appends one line |
| ConfigFile.LookupIn | gpttrace/config.py:48-48 | a key is found exactly when it is among the keys |
| ConfigFile.AssignDistinct | gpttrace/config.py:50-50 | assignment keeps keys distinct and adds the key |
| ConfigFile.AssignLookup | gpttrace/config.py:90-90 | after assigning, that key has the new value and every other key its old one |
| ConfigFile.AssignFresh | gpttrace/config.py:90-90 | a new key goes at the end |
| ConfigFile.AssignExisting | gpttrace/config.py:90-90 | an existing key keeps its place and only its value changes |
| ConfigFile.AssignTwice | gpttrace/config.py:89-90 | a later line for the same key overrides an earlier one |
| ConfigFile.ReadLinesAppend | gpttrace/config.py:87-90 | reading more lines continues from the state reached |
| ConfigFile.CommentIgnored | gpttrace/config.py:88-88 | a line starting with `#` changes nothing |
| ConfigFile.ParseLineCases | gpttrace/config.py:89-89 | a line raises exactly when its stripped text does not hold exactly one `=`, and otherwise key, `=` and value give back the stripped text |
| ConfigFile.ParseWrittenLine | gpttrace/config.py:79-89 | a line written for a clean entry reads back as that entry |
| ConfigFile.LinesOfSerialize | gpttrace/config.py:87-87 | iterating the written file gives one line per entry |
| ConfigFile.UniversalSerialize | gpttrace/config.py:86-87 | newline translation leaves the written file unchanged |
| ConfigFile.ReadWrittenLines | gpttrace/config.py:87-90 | reading the written lines of distinct clean entries gives them back, in order |
| ConfigFile.WriteThenRead | gpttrace/config.py:72-90 | reading back what `_write` wrote gives the same dictionary |
| ConfigFile.MergeLookup | gpttrace/config.py:47-50 | after the merge each key has its file value when the file had it, otherwise its default |
| ConfigFile.MergeExtends | gpttrace/config.py:47-50 | the merge keeps the file's entries as a prefix |
| ConfigFile.MergeFlag | gpttrace/config.py:46-51 | the rewrite flag is set exactly when some default key was missing |
| ConfigFile.MergeNothingMissing | gpttrace/config.py:51-52 | when no default is missing, the entries are left as read and nothing is rewritten |
| ConfigFile.NewFileCoversDefaults | gpttrace/config.py:56-59 | a new file holds every default key |
| ConfigFile.FirstStartThenRestart | gpttrace/config.py:44-60 | the file a first start writes reads back the same, and a second start with the same defaults finds nothing missing |
| Execute.PromptFor | gpttrace/execute.py:36-40 | the running prompt exactly when there is no previous prompt |
| Execute.Execute | gpttrace/execute.py:24-56 | no more calls than runs, and the first call gets the initial `retry` and the prompt for `previous_prompt` |
| Execute.ExecuteRetries | gpttrace/execute.py:48-48 | call `k` receives `retry - k` |
| Execute.ExecuteFailuresBefore | gpttrace/execute.py:44-48 | every call but the last saw a non-empty stderr |
| Execute.ExecutePrompts | gpttrace/execute.py:36-48 | every call after the first sends the error prompt over the previous call's prompt and that run's result; no call sends the explanation prompt |
| Execute.ExecuteEnding | gpttrace/execute.py:43-56 | the chain ends with the explanation of the last run's stdout exactly when that run's stderr is empty, and with an exception exactly when the reply was not a function call or the command could not be built |
| Execute.SuccessIffEmptyStderr | gpttrace/execute.py:44-52 | a run ends the chain with one explanation exactly when its stderr is empty |
| Execute.NotBoundedByRetry | gpttrace/execute.py:32-48 | `n` failures then a success give `n + 1` calls even when `n` exceeds `retry`; calls go on past `retry == 0` with negative counters |
| Execute.RetryZeroStillRetries | gpttrace/execute.py:32-33 | with `retry` 0, a failure then a success gives two calls |
| Execute.ExecuteIntended | gpttrace/execute.py:32-33 | the corrected chain never makes more calls than runs |
| Execute.IntendedBounded | gpttrace/execute.py:32-48 | the corrected chain makes at most `retry` calls, each with a positive counter |
| Execute.IntendedGivesUp | gpttrace/execute.py:32-48 | with `retry` failures in a row, the corrected chain gives up after exactly `retry` calls |
| Execute.IntendedAgreesWithinBudget | gpttrace/execute.py:32-48 | when the as-written chain ends within `retry` calls, the corrected one does the same |
| Execute.EntryExceedsAtOnce | gpttrace/GPTtrace.py:71-71 | without `-v`, the first call already prints that the retries are exceeded |
| Execute.EntryIntendedFiveAttempts | gpttrace/GPTtrace.py:71-71 | with the intended arguments and the corrected chain: at most five calls, none printing the exceeded message, and five failures end in giving up |

## Left out

- Calls to the language model (`openai.ChatCompletion.create`, `agent_chain.predict`, `call_gpt_api`, `bot.ask`): their replies are inputs or oracle sequences.
- `subprocess.run`, `subprocess.check_output`, `os.system` and `run_command_with_timeout`: their results are inputs. The thread, timer and pipe handling of `run_command_with_timeout` is concurrency and is not modelled.
- `tempfile.mktemp` and `shutil.rmtree`: the stderr file is a path parameter.
- `open`, `mkdir` and `getpass`: the configuration file is its contents as a string, and the typed API key is an input.
- `json.loads`: function-call arguments arrive decoded as `Value`s in key order. `json.dumps` of a failed result is kept as the result itself inside `ErrorPrompt`.
- `Value`: numbers and arrays keep their Python `str()` text as given. Floating point is not modelled.
- The prompt templates (`construct_running_prompt`, `construct_prompt_on_error`, `construct_prompt_for_explain`, `func_call_prompt`) are static text and are kept as the `Prompt` values they are built from. `construct_prompt_for_explain` also truncates long output; that is part of the template and is not modelled. The fix prompt of `GPTtrace.py` is kept as text in `TraceLoop.FixPrompt`.
- `print` output, including the coloured `Run:` echo. An echo's `" ".join` is modelled where it can raise: in `BccTools.Display`, and at the start of `run_command_with_timeout` in `Bpftrace.RunBpftrace`.
- The confirmation prompt of `run_command_with_timeout`: `input()` is not modelled and every run is taken as confirmed, so the `exit()` on an answer other than `y` is not modelled either.
- `get_predifine_funcs` and `get_functions` (reading `funcs.json`): the schemas are a parameter. `functions[:40]` in `bcc_tools` only limits what the model sees.
- `gen_func_call`, `get_doc_content_for_query`, `init_conversation`, `init`, the vector index, `extract_code_blocks` (markdown parsing), `pretty_print` and `argparse` handling, except for the argument order of `gpttrace/GPTtrace.py:71`.
- `TraceLoop.ExecuteLoop` requires at least five oracle entries, one per attempt the loop may make. Entries after the last attempt are never read.
- The Python recursion limit on the recursive `execute` is not modelled. The chain is bounded by the oracle's length.
- The `verbose` argument of `execute` only prints.
- `ConfigFile`: keys and values are strings. Path-valued defaults are already `str()`-converted.

## Findings

| source | as written | input that shows it | evidently intended | confidence | as-written member | corrected member |
|---|---|---|---|---|---|---|
| gpttrace/cmd.py:227 | `is_positional_arg` checks `positional_dict.get(cmd_name)` but indexes `positional_dict[cmd]`, where `cmd` is the module's function and never a key | `profile-bpfcc` with `{"duration": 5, "verbose": true}` raises KeyError instead of building `sudo profile-bpfcc --verbose 5` | index with `cmd_name` | not executed | GptCmd.ListedCommandRaises | GptCmd.IsPositionalArgIntended |
| gpttrace/execute.py:32-33 | at `retry == 0` it prints "Retry times exceeded..." and goes on calling `run_bpftrace` | `retry` 0 with a failed run and then a successful one: two calls, the first printing the message | return when `retry <= 0`, so that `retry` bounds the calls (this also stops a negative start, where the as-written `== 0` test never fires) | not executed | Execute.NotBoundedByRetry | Execute.IntendedBounded |
| gpttrace/GPTtrace.py:71 | `execute(args.execute, args.train, args.verbose)` passes `--train` as `verbose` and `--verbose` (0 or 1) as `retry` | no `-v`: `retry` is 0, so the first call prints that the retries are exceeded | `execute(args.execute, args.verbose)` with the default `retry` of 5 | not executed | Execute.EntryExceedsAtOnce | Execute.EntryIntendedFiveAttempts |
