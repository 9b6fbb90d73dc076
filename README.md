# jeckbjy/cli in Dafny: command resolution, option parsing and dispatch

This project models the core of the Go library `jeckbjy/cli`, a git-style command-line framework.
An `App` owns a root `Command`. Commands form a tree through their `Subs`, and each command declares
`Flag`s. When `App.Run` is given a token vector, it works in these steps:

1. **setup** trims the application name. It gives the root a `help` child if none answers to
   "help".
2. **buildCommands** walks the tokens against the tree:
   - option-style tokens (first character `-` or `/`) are set aside in order;
   - a bare token that names a child of the most recent non-help command extends the chain;
   - the first bare token that names none stops the walk. That token and all later ones become
     arguments.
3. **buildAllFlags** merges the flags of the root and of the chain into one map keyed by flag
   `Name`. Deeper commands override shallower ones.
4. **The option pass** of `build` handles each argument in turn:
   - bare tokens become positional parameters;
   - an option with an empty key is skipped;
   - `help`/`h` switches help on;
   - every other key must name flags. For a combined short option such as `-abc`, every character
     must name a flag, all of them are marked as seen, and only the last one takes the value.
   - A key takes its inline value. When the inline value is empty and the next token is bare, it
     takes that token instead (lookahead).
   - Each occurrence goes to the flag through `addOption`. A second occurrence of a single-valued
     flag is an error.
5. **Validation** fails on a required flag that was never given. It gives its default value to
   every flag that collected no value, whether or not it occurred: `-p=` and `--port` followed by
   another option both leave `p` used but without values.
6. The root is dropped from the chain, and so is a leading `help` command. A `Context` is then
   created. The context is either handed to the help command or dispatched with `Next`. `Next` runs
   the handlers of the chain in order. A handler may call `Next` itself (middleware style) or
   `Abort`, which stops every later handler.

## How the Dafny code is organised

- `Errors`: the three panics of the source (unknown option, repeated single-valued flag, missing
  required flag) as `Error` values inside `Result` and `Status`.
- `Text`: the standard-library routines the core uses: `strings.IndexAny` and `strings.TrimSpace`.
- `CliFlag` (flag.go): `Flag` is a class, because parsing updates `used` and `options` in place and
  `Key` caches into `key`. The functions `Added`/`Validated` on `FlagState` are the value-level
  specification of `addOption`/`validate`.
- `CliCommand` (cmd.go): `Command` is an immutable datatype. Its callback is the `Handler`
  datatype (`NoHandler | Plain | Aborts | CallsNext`).
- `CliContext` (context.go): `Context` is a class with the cursor `index` and a `trace` field that
  records which chain positions had their handler invoked. `Runs`/`Final` specify what dispatch
  from a cursor does.
- `CliOption` (app.go `parseOption`): token classification and splitting.
- `CliResolve`: `Resolve` specifies buildCommands, and `EffectiveFlags`/`Register` specify
  buildAllFlags.
- `CliScan`: `Step`/`Scan` specify the option loop of `build` on values, with the state of every
  flag in a map. `ScanUntil` says where a failing pass stops and what the flags hold then.
- `CliApp` (app.go): the class `App`. Its methods `BuildCommands`, `BuildAllFlags`, `ParseOptions`,
  `ValidateAll`, `Launch`, `Build`, `Setup` and `Run` are loops and in-place updates. Each is
  proved against the specifications above. `BuildsAs`/`Concludes` state the whole outcome of a run.

The model follows the code where it differs from what one might expect of a command-line parser:

- A Windows-style token `/x` is never split: `/v:on` has key `v:on` (app.go:302-305).
- An unknown option is a hard error, not a positional parameter (app.go:195, 202).
- `-I/usr/include` sets `I` to `usr/include`, because `/` is a separator.
- In `-I /usr/include`, the lookahead does not take `/usr/include`, since it starts with `/`. That
  token is then read as the Windows option `usr/include`, which is an unknown key.
- buildAllFlags writes `flags[f.Name]` in both of its branches (app.go:283-289). So a short name
  alone never becomes a key, and a flag with only a short name is entered under `""`.
- With `-abc`, every character must name a flag, but only the flag of `c` receives `addOption`
  (app.go:189-198, 219).
- Without an abort, the outermost `Next` leaves the cursor at `|cmds|` plus one for every handler
  that called `Next` itself. It is exactly `|cmds|` only when no handler does so, because each
  nested loop steps the cursor once more past the end.
- `Flag` in flag.go declares no `Short` field, yet app.go:287 reads one. `Command` in cmd.go
  declares no `Header`/`Footer`, yet app.go:115 and 120 append to them. The model gives both
  types these fields as plain strings.

## Model

| member | source | states |
|---|---|---|
| Text.IndexAny | app.go:320 | -1 exactly when no character of the string is in the set; otherwise the position of the first one that is |
| Text.TrimSpace | app.go:136 | the result is a slice of the input with no white space at either end; everything cut off at both ends is white space |
| CliFlag.KeyOf | flag.go:20-31 | the key has no comma; it is the name itself when the name has no comma, else the trimmed text before the first comma |
| CliFlag.MultipleCollectsInOrder | flag.go:33-45 | occurrences of a multiple flag always succeed; it collects exactly the non-empty values in call order and is used iff it got any |
| CliFlag.SingleAcceptsOneOccurrence | flag.go:33-45 | a run of occurrences of a single-valued flag succeeds iff there is none, or one on an unused flag |
| CliFlag.ValidatedIdempotent | flag.go:53-55 | a second validation leaves the flag as the first left it |
| CliFlag.Flag.constructor | flag.go:9-18 | a new flag is unused, has no values and an empty key cache |
| CliFlag.Flag.Key | flag.go:20-31 | returns KeyOf(Name) and leaves it in the cache, so repeated calls agree |
| CliFlag.Flag.AddOption | flag.go:33-45 | fails iff already used and not multiple, changing nothing then; otherwise sets used and appends the value iff it is non-empty (Len grows by 0 or 1); agrees with Added |
| CliFlag.Flag.Validate | flag.go:47-58 | fails iff required and unused; on success an empty value list with a default becomes [default], any other list is unchanged; agrees with Validated |
| CliFlag.Flag.Get | flag.go:61-67 | the value at position 0, "" when there is none; "" iff no value was collected |
| CliFlag.Flag.GetAt | flag.go:70-76 | the i-th value when i < Len(), else ""; "" iff i is past the end |
| CliFlag.Flag.GetList | flag.go:79-81 | all collected values, the i-th being GetAt(i) |
| CliFlag.Flag.Len | flag.go:84-86 | the length of GetList; for a valid flag, GetAt(i) is non-empty exactly below Len |
| CliFlag.Added | flag.go:33-45 | one occurrence is refused iff the flag is used and not multiple; otherwise the flag becomes used and its values grow by exactly the non-empty value, the earlier ones kept |
| CliFlag.Validated | flag.go:47-58 | refused iff required and unused; otherwise used is kept and the values are unchanged, or become [default] when there were none and the default is non-empty |
| CliFlag.AddedAll | flag.go:33-45 | a run of occurrences that all succeed only appends, at most one value per occurrence, and leaves the flag used iff it was or got any occurrence |
| CliCommand.Command.IsCommand | cmd.go:27-39 | true iff the name is the command's Name or one of its aliases |
| CliCommand.Command.FindSub | cmd.go:41-49 | none iff no child answers to the name; otherwise a child that answers to it, with no earlier child answering |
| CliCommand.Listed | cmd.go:32-36 | the alias loop finds the name iff it is in the alias list |
| CliCommand.FirstMatch | cmd.go:42-46 | the child loop stops at the first child that answers to the name, or after the last |
| CliCommand.NewCmd | cmd.go:19-25 | sets exactly Name, Group and Run; every other field is empty |
| CliCommand.ChildFlags | cmd.go:41-49 | the flags below a found child are among the parent's |
| CliContext.Runs | context.go:282-291 | the positions a dispatch loop runs are strictly increasing chain positions at or after the cursor, each with a handler; so each handler runs at most once |
| CliContext.Final | context.go:282-291 | the cursor a dispatch loop leaves is at or past both the start and the end of the chain |
| CliContext.FirstAbort | context.go:294-296 | the first aborting position at or after the cursor, or the chain length; none before it aborts |
| CliContext.DispatchRunsUntilAbort | context.go:282-296 | dispatch runs every handler up to and including the first that aborts, and none after it |
| CliContext.DispatchEndsAbortedIff | context.go:282-301 | the chain ends aborted iff some handler aborts; otherwise the cursor ends at the chain length plus the number of re-entrant handlers |
| CliContext.StepRuns | context.go:285-290 | one loop step at the cursor, whatever the handler does, leaves the rest of the dispatch consistent with dispatching from the cursor |
| CliContext.AbortStopsLaterHandlers | context.go:285-296 | with handlers Plain, Aborts, any: only the first two run and the chain ends aborted |
| CliContext.Context.constructor | context.go:23-31 | a new context holds its arguments, has no side channel, cursor -1 and is not aborted |
| CliContext.Context.Get | context.go:42-48 | Nil before the side channel exists or for an absent key, the stored value otherwise |
| CliContext.Context.Set | context.go:51-57 | afterwards Get(key) is the value and every other key reads as before |
| CliContext.Context.NArg | context.go:60-62 | the number of positional parameters |
| CliContext.Context.Arg | context.go:65-68 | the i-th positional parameter for an index within `NArg`, and None (the index panic) for every other index, negative ones included |
| CliContext.Context.NFlag | context.go:100-102 | the number of flags that occurred |
| CliContext.Context.Flag | context.go:105-107 | null iff the key did not occur, else the flag under it |
| CliContext.Context.FlagStr | context.go:110-117 | the first value of the flag under the key, "" when it did not occur |
| CliContext.Context.FlagList | context.go:145-152 | all values of the flag under the key, none when it did not occur |
| CliContext.Context.Next | context.go:282-291 | the handlers invoked are exactly Runs from the cursor (in order, up to the first abort, each once, re-entrant calls included) and the cursor ends at Final |
| CliContext.Context.RunCurrent | context.go:286-289 | one turn of the loop keeps what remains to run consistent with Runs and Final |
| CliContext.Context.Call | context.go:287-289 | per handler kind: a plain one leaves the cursor, an aborting one sets the sentinel, a re-entrant one runs the rest of the chain first |
| CliContext.Context.Abort | context.go:294-301 | the cursor becomes the sentinel and IsAborted holds |
| CliContext.Context.IsAborted | context.go:298-301 | an aborted cursor lies past every chain position, so the dispatch loop runs no further handler |
| CliOption.ParseOption | app.go:296-326 | the style is Unknown iff the token starts with neither '-' nor '/' |
| CliOption.ParseOptionShape | app.go:296-326 | Unknown with empty key and value for a bare token; Windows with the unsplit rest; for '-'/'--' the body is cut at its first separator with key + sep + value == body and a separator-free key, or the whole body is the key |
| CliOption.LongOptionRoundTrip | app.go:312-323 | "--key=value" parses back to (Double, key, value) for every separator-free key |
| CliOption.ShortOptionRoundTrip | app.go:312-323 | "-key<sep>value" parses back to (Single, key, value) |
| CliOption.LeadingKey | app.go:320-322 | the first separator of key + sep + value is the one after the key |
| CliOption.SlashAfterShortKeyIsSeparator | app.go:319-323 | "-I/usr/include" sets I to "usr/include" |
| CliOption.WindowOptionIsNotSplit | app.go:302-305 | "/rest" has key rest and no value, separators included |
| CliResolve.Resolve | app.go:253-277 | the chain and the arguments together are exactly as many as the tokens (each token selects a command or becomes an argument); the arguments are non-empty tokens |
| CliResolve.Follow | app.go:271-273 | the walk goes on under the selected command, except that selecting help leaves it under the previous one, so a walk that is not under help never gets under it (the whole walk is ResolveStops) |
| CliResolve.LastNonHelp | app.go:271-273 | the lookup base is the root or the last non-help command of the chain |
| CliResolve.OptionTokens | app.go:259-262 | only option-style tokens of the input are kept |
| CliResolve.BareTokens | app.go:264-268 | only bare tokens of the input are kept |
| CliResolve.ResolveStops | app.go:253-277 | the walk stops at some position: arguments are the option tokens before it then the whole suffix; the k-th bare token before it selected the k-th command as a child of the last non-help command before that; the stop token names no child |
| CliResolve.StopsAfterOption | app.go:259-262 | an option token in front moves the stop one place on |
| CliResolve.StopsAfterSub | app.go:264-273 | a bare token selecting a child in front moves the stop one place on |
| CliResolve.SelectedCons | app.go:270-273 | selection extends by a selected child in front |
| CliResolve.ChainWithinTree | app.go:264-273 | every selected command lies in the tree, so its flags are the tree's |
| CliResolve.RegisterSnoc | app.go:282-289 | one more flag is written under its Name iff it has a name or a short name |
| CliResolve.FlagSeqFrom | app.go:281-282 | every collected flag comes from a command of the chain |
| CliResolve.Register | app.go:279-294 | every key maps to a registered flag of the sequence whose own Name it is, and every registered flag of the sequence makes its Name a key |
| CliResolve.FlagSeqHas | app.go:281-282 | every flag of every command of the chain is collected |
| CliResolve.EffectiveFlags | app.go:279-294 | every key is the Name of a registered flag, and every registered flag of every command of the chain makes its Name a key (which flag wins is RegisterLastWins) |
| CliResolve.LastNamed | app.go:281-289 | the last registered flag with the name, with no later one |
| CliResolve.RegisterLastWins | app.go:279-294 | a name is a key iff some registered flag carries it, and it maps to the last (deepest) such flag |
| CliResolve.ShortNameIsNoKey | app.go:287-289 | a key that is no flag's Name is never in the map, whatever the short names |
| CliResolve.EffectiveWithinTree | app.go:159-161 | the effective flags all belong to the tree |
| CliScan.MarkAll | app.go:189-198 | succeeds iff every character names a flag; otherwise fails naming a character that does not |
| CliScan.Lookup | app.go:186-205 | a successful lookup selects an effective flag |
| CliScan.LookupKnown | app.go:189-205 | the lookup succeeds iff every character of a combined key, or the key itself, is registered; otherwise an unknown-option error |
| CliScan.IsValue | app.go:210-217 | a token taken by the lookahead is never an acting option itself and always follows an acting one |
| CliScan.ValueAt | app.go:209-217 | an acting token's value is its inline value or the next token; a non-empty inline value always wins, and an empty one gives way to a following bare token |
| CliScan.Step | app.go:169-221 | one turn moves forward within the arguments and keeps the set of flags tracked |
| CliScan.Scan | app.go:168-222 | a successful pass keeps the set of flags tracked |
| CliScan.ScanUntil | app.go:163-222 | where the pass stops: at the end, with the result of Scan, or at the token whose turn fails, with Scan's error being that turn's; the flags tracked are kept |
| CliScan.ScanStep | app.go:168-222 | a successful turn hands the rest of the pass to the next position |
| CliScan.ScanUntilStates | app.go:186-221 | when the pass stops, failing or not, every flag is in the state its own values before the stop, applied one occurrence at a time, lead to |
| CliScan.StepAddedAll | app.go:209-221 | one successful turn applies to each flag exactly its values at that turn, and leaves the rest of its values to the later turns |
| CliScan.ScanParamsAndHelp | app.go:168-217 | the parameters are exactly the bare tokens the lookahead did not take, in order; help is on iff a help token occurs |
| CliScan.StepParamsAndHelp | app.go:171-217 | one turn keeps the parameters built plus those to come, and help asked or to come |
| CliScan.ScanOptions | app.go:186-205 | a successful pass knew every key it met, and the seen-map holds exactly the flags of those keys under their names |
| CliScan.StepOptions | app.go:186-205 | one turn marks exactly the keys of its token |
| CliScan.LookupMarks | app.go:189-205 | a lookup marks exactly its key, or every character of a combined key |
| CliScan.MarkAllMarks | app.go:189-198 | the character loop marks the flag of every character and nothing else |
| CliScan.ScanStates | app.go:186-221 | after a successful pass every flag is in the state its own values, applied one occurrence at a time, lead to |
| CliScan.StepStates | app.go:209-221 | one turn gives a value only to the flag its token targets |
| CliScan.StepBare | app.go:171-174 | a bare token becomes a parameter and the turn moves one token on |
| CliScan.StepIdle | app.go:176-184 | an empty key is skipped; a help key switches help on and touches no flag |
| CliScan.StepUnknown | app.go:194-203 | an unknown key fails the turn with the lookup's error |
| CliScan.StepActing | app.go:209-221 | a known key takes its inline value, or the next token when the value is empty and that token is bare, which is then skipped; a refused occurrence fails the turn with NotMultiple |
| CliScan.ScanActing | app.go:209-221 | a known key takes its inline value, or the next token when the value is empty and that token is bare, which is then skipped; a refused occurrence is an error |
| CliScan.CombinedValueGoesToLast | app.go:189-221 | "-ab x" marks a and b, gives "x" to b only and leaves a untouched |
| CliApp.HelpCommand | app.go:141-148 | the added help command is named help, has no flags or children and returns |
| CliApp.WantsHelp | app.go:234-242 | help whenever it was asked for or the chain starts with help; without help the chain is dispatched whole, and it is non-empty or the root has a "" command (Launch states the outcome) |
| CliApp.Dispatchable | app.go:239-242 | a leading help command is dropped, nothing else |
| CliApp.WithHelp | app.go:141-148 | after setup "help" is always found; a root that had one is unchanged; no flag is added |
| CliApp.App.constructor | app.go:56-61 | a new application has an empty root, no groups and no language table |
| CliApp.App.SetLanguage | app.go:76-78 | afterwards "$key" translates to the table's entry for key, "" on a miss |
| CliApp.App.SetGroups | app.go:80-82 | the group table is replaced |
| CliApp.App.AddGroup | app.go:84-90 | the group reads as its description (or its name when that is empty); every other group is unchanged |
| CliApp.App.GetGroup | app.go:92-101 | the name itself, or its non-empty description; the name exactly when there is none |
| CliApp.App.Translate | app.go:329-350 | a literal name stands for itself; a "$" name or empty name gives "" or a value of the language table, and "" with no table |
| CliApp.App.AddCommands | app.go:104-106 | the commands are appended to the root's children |
| CliApp.App.AddFlags | app.go:109-111 | the flags are appended to the root's flags |
| CliApp.App.AddHeader | app.go:114-116 | the text is appended to the root's header |
| CliApp.App.AddFooter | app.go:119-121 | the text is appended to the root's footer |
| CliApp.App.Setup | app.go:135-149 | the name is trimmed and the root becomes WithHelp of the old root; every flag of the tree keeps its state and key cache |
| CliApp.App.BuildCommands | app.go:253-277 | the commands are the root followed by Resolve's chain, the arguments are Resolve's |
| CliApp.App.BuildAllFlags | app.go:279-294 | the map is EffectiveFlags of the chain |
| CliApp.App.RegisterAll | app.go:282-290 | the inner loop extends the map by one command's flags as Register does |
| CliApp.App.LookupFlag | app.go:186-205 | the lookup loop agrees with Lookup, errors included |
| CliApp.App.ParseOptions | app.go:163-222 | the option loop agrees with Scan from the flags' current states; afterwards, on success and on error alike, each flag holds the state ScanUntil reaches, that is what the tokens before the stop gave it; only used and options change, key caches are kept |
| CliApp.App.Turn | app.go:169-221 | one turn agrees with Step: on its error every flag keeps its state; otherwise where the pass goes on and the flags' new states |
| CliApp.App.ValidateAll | app.go:224-229 | passes iff no effective flag is required and unused; otherwise fails naming such a flag; on success every flag is validated, on failure each flag is left as it was or validated; only values change, key caches are kept |
| CliApp.App.Launch | app.go:231-250 | help iff asked, or no command and no "" child, or a leading help command (which is dropped); the context holds the parameters and seen flags; a dispatched chain ran exactly Runs |
| CliApp.App.Build | app.go:151-251 | the whole outcome per BuildsAs: a pass error with each flag in the state the tokens before the failing one gave it; a missing required flag with each flag as the pass left it or validated; otherwise validated flags, then help or dispatch; flags outside the effective map (unselected or shadowed) keep their states; only used and options of tree flags change, every key cache is kept |
| CliApp.App.ParseAndLaunch | app.go:163-250 | the option pass, validation and the help-or-dispatch decision end as Concludes states for the effective flags, failures included; key caches are kept |
| CliApp.ConcludesOn | app.go:224-250 | the outcome of build depends on the final states of the effective flags only |
| CliApp.BuildConcluded | app.go:151-251 | build ends as BuildsAs says once the effective flags conclude as Concludes says and every other flag of the tree is unchanged |
| CliApp.App.Run | app.go:124-133 | setup, then build on the resulting root, as BuildsAs states, flag states after a failure included; flags outside the effective map keep their states and every key cache is kept |

## Left out

- help.go is not part of this model. It renders and prints the help text. A `ShowHelp` outcome
  stands for handing the context to the help command, whose handler is not run in the model.
- `Context.Bind`/`bindValue`, the typed accessors (`ArgInt`, `FlagBool`, ... with `strconv` and
  floating point), `App`/`CommandList`, and util.go: reflection, number parsing and regular
  expressions outside the modelled core.
- `New`/`NewWithHelp` read `os.Args[0]` and `filepath.Base`. The constructor takes the name
  instead, and `Run` takes the token vector `os.Args[1:]` as a parameter.
- `Run`'s `recover` and `log.Printf`: a panic is the `Failed` outcome carrying the error.
- The `Hint` field of `Flag` is only declared (flag.go:13); nothing in the modelled files reads it.
- The custom `IHelp` and the context's back-pointer to the `App` are
  used only by help rendering and binding.
- `Command.AddSub` is not among the modelled files. Setup models it as appending to `Subs`.
- CliApp.App.ValidateAll: Go's map iteration order is unspecified. The model picks the flags in an
  arbitrary order, so it states only that some missing required flag is named, not which.
- CliApp.App.Build: requires every token to be non-empty. The source indexes the first byte of a
  token and would crash on an empty one.
- CliApp.App.Build: requires fewer tokens than the abort sentinel `math.MaxInt32`, so that the
  chain can never reach the sentinel.
- CliContext.DispatchEndsAbortedIff: requires the chain length plus the number of re-entrant
  handlers to stay below the sentinel. Past it, an unaborted chain would also read as aborted.
- CliFlag.Flag.GetAt: takes a natural index. A negative index makes the source panic.
- CliApp.App.Translate: its contract states what a result can be, not which table entry is
  chosen. The exact lookup is shown per key by `SetLanguage`'s contract.
- Strings are sequences of characters, while Go indexes bytes. For non-ASCII text the positions
  differ, and combined short options would split by byte in Go.
- `int` is unbounded. `Len` and the cursor are not checked against Go's word size, apart from the
  sentinel bound above.
- A nil `groups` or `languages` map: `groups` starts empty, which reads the same way. `languages`
  is an `Option`, `None` being nil.
- Commands are immutable values, so command identity and aliasing between trees are not modelled.
  Flags are objects, and parsing changes them in place.
