/** app.go: the application object, which owns the root of the command tree,
    resolves a token vector against it, parses the options, validates the
    flags and starts the dispatch. */
module CliApp {
  import opened Errors
  import Text
  import opened CliFlag
  import opened CliCommand
  import opened CliContext
  import opened CliOption
  import opened CliResolve
  import opened CliScan

  /** AppCommandName: the name of a child of the root that runs when no command is given. */
  const AppCommandName: string := ""

  /** How build ends: with an error (a panic in the source), by handing the
      context to the help command, or by running the chain. */
  datatype Outcome = Failed(error: Error) | ShowHelp(ctx: Context) | Dispatched(ctx: Context)

  /** The help command setup adds: its handler renders the help text and returns. */
  function HelpCommand(): (c: Command)
    ensures c.Name == "help" && c.Flags == [] && c.Subs == [] && c.Run == Plain
  {
    NewCmd("help", "", Plain)
  }

  /** The state of every flag of `fs`. */
  function StatesOf(fs: set<Flag>): (m: map<Flag, FlagState>)
    reads fs
    ensures m.Keys == fs
    ensures forall f :: f in fs ==> m[f] == f.State()
  {
    map f | f in fs :: f.State()
  }

  /** The key cache of every flag of `fs`. */
  function KeyCaches(fs: set<Flag>): (m: map<Flag, string>)
    reads fs
    ensures m.Keys == fs
    ensures forall f :: f in fs ==> m[f] == f.key
  {
    map f | f in fs :: f.key
  }

  /** The states of the flags `fs` only. */
  function Restricted(states: map<Flag, FlagState>, fs: set<Flag>): (m: map<Flag, FlagState>)
    requires fs <= states.Keys
    ensures m.Keys == fs
    ensures forall f :: f in fs ==> m[f] == states[f]
  {
    map f | f in fs :: states[f]
  }

  /** Flags that must be given but were not, in the states `states`. */
  function Missing(states: map<Flag, FlagState>, fs: set<Flag>): set<Flag>
    requires fs <= states.Keys
  {
    set f | f in fs && f.Required && !states[f].used
  }

  /** Help is shown when asked for, when no command was selected and the root
      has no command for that case, or when the first command is help. */
  function WantsHelp(root: Command, chain: seq<Command>, asked: bool): (b: bool)
    ensures asked ==> b
    ensures chain != [] && chain[0].Name == "help" ==> b
    ensures !b ==> Dispatchable(chain) == chain && (chain != [] || root.FindSub(AppCommandName).Some?)
  {
    || asked
    || (chain == [] && root.FindSub(AppCommandName).None?)
    || (chain != [] && chain[0].Name == "help")
  }

  /** The chain handed to the context: without a leading help command. */
  function Dispatchable(chain: seq<Command>): (r: seq<Command>)
    ensures |r| <= |chain|
    ensures chain != [] && chain[0].Name == "help" ==> r == chain[1..]
    ensures (chain == [] || chain[0].Name != "help") ==> r == chain
  {
    if chain != [] && chain[0].Name == "help" then chain[1..] else chain
  }

  /** The flags the chain a token vector selects makes known. */
  function EffectiveOf(root: Command, tokens: seq<string>): map<string, Flag>
    requires Tokens(tokens)
  {
    EffectiveFlags([root] + Resolve(root, tokens).chain)
  }

  /** What build does with `tokens` under the root `root`, from the flag states
      `before` to the flag states `after`: every flag outside the effective map
      keeps its state (unselected commands' flags, and flags shadowed by a
      deeper one of the same Name), and the effective ones end as Concludes
      says. */
  ghost predicate BuildsAs(root: Command, tokens: seq<string>, before: map<Flag, FlagState>,
                           after: map<Flag, FlagState>, r: Outcome)
    requires Tokens(tokens) && |tokens| < AbortIndex
    requires EffectiveOf(root, tokens).Values <= before.Keys
    requires EffectiveOf(root, tokens).Values <= after.Keys
    reads if r.Failed? then {} else {r.ctx}
  {
    var res := Resolve(root, tokens);
    var eff := EffectiveOf(root, tokens);
    && (forall f :: f in before && f !in eff.Values ==> f in after && after[f] == before[f])
    && Concludes(root, res.chain, res.args, eff, Restricted(before, eff.Values), after, r)
  }

  /** How build ends after the option pass over `args` with the effective
      flags `flags`, from the states `start`.  An error in the pass stops
      it with that error, the flags keeping what the tokens before the failing
      one gave them.  Then a required flag that was never given stops it with
      an error naming one such flag, each flag being left as the pass left it
      or validated.  Otherwise every flag is validated (`after`), and a context
      holds the parameters, the seen flags and the selected chain (without a
      leading help command), and is either handed to the help command
      untouched or dispatched from the start. */
  ghost predicate Concludes(root: Command, chain: seq<Command>, args: seq<string>, flags: map<string, Flag>,
                            start: map<Flag, FlagState>, after: map<Flag, FlagState>, r: Outcome)
    requires |chain| < AbortIndex && Tokens(args)
    requires flags.Values <= start.Keys && flags.Values <= after.Keys
    reads if r.Failed? then {} else {r.ctx}
  {
    var fs := flags.Values;
    var sc := Scan(args, flags, 0, Scanned(map[], [], false, start));
    && (sc.Err? ==>
          && r == Failed(sc.error)
          && var reached := ScanUntil(args, flags, 0, Scanned(map[], [], false, start)).acc.states;
          && forall f :: f in fs ==> after[f] == reached[f])
    && (sc.Ok? ==>
          && fs <= sc.value.states.Keys
          && var missing := Missing(sc.value.states, fs);
          && (r.Failed? <==> missing != {})
          && (r.Failed? ==> exists f :: f in missing && r.error == MissingRequired(f.Name))
          && (r.Failed? ==> forall f :: f in fs ==>
                after[f] == sc.value.states[f] || Validated(sc.value.states[f], f.Required, f.Value) == Some(after[f]))
          && (!r.Failed? ==>
                && (forall f :: f in fs ==> Validated(sc.value.states[f], f.Required, f.Value) == Some(after[f]))
                && r.ctx.args == sc.value.params
                && r.ctx.flags == sc.value.options
                && r.ctx.cmds == Dispatchable(chain)
                && (r.ShowHelp? <==> WantsHelp(root, chain, sc.value.isHelp))
                && (r.ShowHelp? ==> r.ctx.index == -1 && r.ctx.trace == [])
                && (r.Dispatched? ==> r.ctx.trace == Runs(r.ctx.cmds, 0) && r.ctx.index == Final(r.ctx.cmds, 0))))
  }

  class App {
    var Name: string
    var root: Command
    var groups: map<string, string>              // a nil map reads as an empty one
    var languages: Option<map<string, string>>

    /** An application with an empty root command (New, with the program name given). */
    constructor (name: string)
      ensures Name == name && root == NewCmd("", "", NoHandler)
      ensures groups == map[] && languages == None
    {
      Name, root := name, NewCmd("", "", NoHandler);
      groups, languages := map[], None;
    }

    method SetLanguage(langs: map<string, string>)
      modifies this`languages
      ensures languages == Some(langs)
      ensures forall k :: Translate("$" + k, "") == if k in langs then langs[k] else ""
    {
      languages := Some(langs);
      forall k ensures Translate("$" + k, "") == if k in langs then langs[k] else "" {
        assert ("$" + k)[1..] == k;
      }
    }

    method SetGroups(g: map<string, string>)
      modifies this`groups
      ensures groups == g
    {
      groups := g;
    }

    /** Describes group `name`; every other group keeps its description. */
    method AddGroup(name: string, desc: string)
      modifies this`groups
      ensures groups == old(groups)[name := desc]
      ensures GetGroup(name) == if desc != "" then desc else name
      ensures forall n :: n != name ==> GetGroup(n) == old(GetGroup(n))
    {
      groups := groups[name := desc];
    }

    /** The description of group `name`, or the name itself when it has none. */
    function GetGroup(name: string): (r: string)
      reads this
      ensures r == name || (name in groups && r == groups[name])
      ensures r == name <==> name !in groups || groups[name] == "" || groups[name] == name
    {
      if name in groups && groups[name] != "" then groups[name] else name
    }

    /** A literal name stands for itself; "$key" (or an empty name with an
        alternative key) is looked up in the language table, "" on a miss. */
    function Translate(name: string, alternative: string): (r: string)
      reads this
      ensures name != "" && name[0] != '$' ==> r == name
      ensures (name == "" || name[0] == '$') ==> r == "" || (languages.Some? && r in languages.value.Values)
      ensures languages.None? ==> r == name || r == ""
    {
      if name != "" && name[0] != '$' then name
      else if languages.None? then ""
      else
        var key := if name != "" then name[1..] else alternative;
        if key in languages.value then languages.value[key] else ""
    }

    method AddCommands(cmds: seq<Command>)
      modifies this`root
      ensures root == old(root).(Subs := old(root).Subs + cmds)
    {
      root := root.(Subs := root.Subs + cmds);
    }

    method AddFlags(flags: seq<Flag>)
      modifies this`root
      ensures root == old(root).(Flags := old(root).Flags + flags)
    {
      root := root.(Flags := root.Flags + flags);
    }

    method AddHeader(data: string)
      modifies this`root
      ensures root == old(root).(Header := old(root).Header + data)
    {
      root := root.(Header := root.Header + data);
    }

    method AddFooter(data: string)
      modifies this`root
      ensures root == old(root).(Footer := old(root).Footer + data)
    {
      root := root.(Footer := root.Footer + data);
    }

    /** Trims the name and makes sure the root has a help command, adding one
        at the end of its children when none answers to "help". */
    method Setup()
      modifies this`Name, this`root
      ensures Name == Text.TrimSpace(old(Name))
      ensures root == WithHelp(old(root))
      ensures StatesOf(AllFlags(root)) == old(StatesOf(AllFlags(root)))
      ensures KeyCaches(AllFlags(root)) == old(KeyCaches(AllFlags(root)))
    {
      ghost var tree := AllFlags(root);
      Name := Text.TrimSpace(Name);
      root := WithHelp(root);
      FlagsKept(tree);
    }

    /** buildCommands: the root followed by the chain the tokens select, and
        the tokens left for the option pass. */
    method BuildCommands(tokens: seq<string>) returns (cmds: seq<Command>, args: seq<string>)
      requires Tokens(tokens)
      ensures cmds == [root] + Resolve(root, tokens).chain
      ensures args == Resolve(root, tokens).args
    {
      cmds, args := [root], [];
      var last := root;
      var idx := 0;
      while idx < |tokens|
        invariant 0 <= idx <= |tokens|
        invariant Tokens(tokens[idx..])
        invariant cmds + Resolve(last, tokens[idx..]).chain == [root] + Resolve(root, tokens).chain
        invariant args + Resolve(last, tokens[idx..]).args == Resolve(root, tokens).args
      {
        var str := tokens[idx];
        ghost var rest := Resolve(last, tokens[idx..]);
        assert tokens[idx..][0] == str && tokens[idx..][1..] == tokens[idx + 1..];
        if str[0] == '/' || str[0] == '-' {
          ghost var after := Resolve(last, tokens[idx + 1..]);
          assert rest == Resolution(after.chain, [str] + after.args);
          assert (args + [str]) + after.args == args + ([str] + after.args);
          args := args + [str];
          idx := idx + 1;
          continue;
        }
        var sub := last.FindSub(str);
        if sub.None? {
          assert rest == Resolution([], tokens[idx..]);
          args := args + tokens[idx..];
          break;
        }
        ghost var after := Resolve(Follow(last, sub.value), tokens[idx + 1..]);
        assert rest == Resolution([sub.value] + after.chain, after.args);
        assert (cmds + [sub.value]) + after.chain == cmds + ([sub.value] + after.chain);
        cmds := cmds + [sub.value];
        if sub.value.Name != "help" {
          last := sub.value;
        }
        idx := idx + 1;
      }
    }

    /** buildAllFlags: every flag of the chain with a name or a short name,
        under its Name, deeper commands overriding shallower ones. */
    method BuildAllFlags(cmds: seq<Command>) returns (flags: map<string, Flag>)
      ensures flags == EffectiveFlags(cmds)
    {
      flags := map[];
      for i := 0 to |cmds|
        invariant flags == Register(FlagSeq(cmds[..i]))
      {
        flags := RegisterAll(flags, FlagSeq(cmds[..i]), cmds[i].Flags);
        FlagSeqSnoc(cmds, i);
      }
      assert cmds[..|cmds|] == cmds;
    }

    /** The inner loop of buildAllFlags: the flags of one command, in order,
        entered under their Name when they have a name or a short name. */
    method RegisterAll(flags: map<string, Flag>, ghost before: seq<Flag>, fs: seq<Flag>)
      returns (flags': map<string, Flag>)
      requires flags == Register(before)
      ensures flags' == Register(before + fs)
    {
      flags' := flags;
      ghost var done := before;
      for j := 0 to |fs|
        invariant done == before + fs[..j]
        invariant flags' == Register(done)
      {
        var f := fs[j];
        RegisterSnoc(done, f);
        ghost var prior := flags';
        if f.Name != "" {
          flags' := flags'[f.Name := f];
        }
        if f.Short != "" {
          flags' := flags'[f.Name := f];
        }
        assert flags' == if Registered(f) then prior[f.Name := f] else prior;
        done := done + [f];
        assert done == before + fs[..j + 1];
      }
      assert fs[..|fs|] == fs;
    }

    /** The flag lookup of build: each character of a combined short option
        must name a flag, all of them are marked as seen and the last one is
        selected; any other key must name a flag itself. */
    method LookupFlag(p: Parsed, flags: map<string, Flag>, options: map<string, Flag>)
      returns (r: Result<(Flag, map<string, Flag>)>)
      requires p.key != ""
      ensures r == Lookup(p, flags, options)
    {
      var seen: map<string, Flag> := options;
      if IsCombined(p) {
        var i := 0;
        var flag: Flag? := null;
        while i < |p.key|
          invariant 0 <= i <= |p.key|
          invariant MarkAll(p.key, flags, options) == MarkAll(p.key[i..], flags, seen)
          invariant i > 0 ==> [p.key[i - 1]] in flags && flag == flags[[p.key[i - 1]]]
        {
          assert p.key[i..][1..] == p.key[i + 1..];
          var st := [p.key[i]];
          if st !in flags {
            return Err(UnknownOption(st));
          }
          flag := flags[st];
          seen := seen[flags[st].Name := flags[st]];
          i := i + 1;
        }
        return Ok((flag, seen));
      }
      if p.key !in flags {
        return Err(UnknownOption(p.key));
      }
      var flag := flags[p.key];
      seen := seen[flag.Name := flag];
      return Ok((flag, seen));
    }

    /** The option loop of build: bare tokens become parameters, help keys
        switch help on, every other key must name flags, which are marked as
        seen and given the token's value (or the next bare token) as one more
        occurrence.  The first unknown key or refused occurrence is an error. */
    method ParseOptions(args: seq<string>, flags: map<string, Flag>) returns (r: Result<Scanned>)
      requires Tokens(args)
      modifies flags.Values`used, flags.Values`options
      ensures KeyCaches(flags.Values) == old(KeyCaches(flags.Values))
      ensures r == Scan(args, flags, 0, Scanned(map[], [], false, old(StatesOf(flags.Values))))
      ensures r.Ok? ==> r.value.states == StatesOf(flags.Values)
      ensures StatesOf(flags.Values) == ScanUntil(args, flags, 0, Scanned(map[], [], false, old(StatesOf(flags.Values)))).acc.states
    {
      ghost var states := StatesOf(flags.Values);
      ghost var spec := Scan(args, flags, 0, Scanned(map[], [], false, states));
      ghost var until := ScanUntil(args, flags, 0, Scanned(map[], [], false, states));
      var options: map<string, Flag> := map[];
      var params: seq<string> := [];
      var isHelp := false;
      var idx := 0;
      while idx < |args|
        invariant idx <= |args|
        invariant states.Keys == flags.Values
        invariant forall f :: f in flags.Values ==> states[f] == f.State()
        invariant spec == Scan(args, flags, idx, Scanned(options, params, isHelp, states))
        invariant until == ScanUntil(args, flags, idx, Scanned(options, params, isHelp, states))
        decreases |args| - idx
      {
        var failed, next, options', params', isHelp';
        ghost var states';
        failed, next, options', params', isHelp', states' := Turn(args, flags, idx, options, params, isHelp, states);
        if failed.Some? {
          assert states == StatesOf(flags.Values);
          KeysKept(flags.Values);
          return Err(failed.value);
        }
        idx, options, params, isHelp, states := next, options', params', isHelp', states';
      }
      r := Ok(Scanned(options, params, isHelp, StatesOf(flags.Values)));
      assert states == StatesOf(flags.Values);
      KeysKept(flags.Values);
    }

    /** One turn of the option loop, on the token at `idx`: where the loop
        goes on and what it has built by then, or the error it stops with. */
    method Turn(args: seq<string>, flags: map<string, Flag>, idx: nat,
                options: map<string, Flag>, params: seq<string>, isHelp: bool,
                ghost states: map<Flag, FlagState>)
      returns (failed: Option<Error>, next: nat, options': map<string, Flag>, params': seq<string>,
               isHelp': bool, ghost states': map<Flag, FlagState>)
      requires Tokens(args) && idx < |args|
      requires states.Keys == flags.Values
      requires forall f :: f in flags.Values ==> states[f] == f.State()
      modifies flags.Values`used, flags.Values`options
      ensures failed.Some? ==>
                && Step(args, flags, idx, Scanned(options, params, isHelp, states)) == Err(failed.value)
                && forall f :: f in flags.Values ==> f.State() == states[f]
      ensures failed.None? ==>
                && states'.Keys == flags.Values
                && (forall f :: f in flags.Values ==> states'[f] == f.State())
                && Step(args, flags, idx, Scanned(options, params, isHelp, states))
                   == Ok(Move(next, Scanned(options', params', isHelp', states')))
    {
      ghost var acc := Scanned(options, params, isHelp, states);
      failed, next, options', params', isHelp', states' := None, idx + 1, options, params, isHelp, states;
      var str := args[idx];
      var p := ParseOption(str);
      if p.style == Unknown {
        StepBare(args, flags, idx, acc);
        params' := params + [str];
        return;
      }
      if p.key == "" {
        StepIdle(args, flags, idx, acc);
        return;
      }
      if p.key == "help" || p.key == "h" {
        StepIdle(args, flags, idx, acc);
        isHelp' := true;
        return;
      }
      var found := LookupFlag(p, flags, options);
      if found.Err? {
        StepUnknown(args, flags, idx, acc);
        return Some(found.error), next, options', params', isHelp', states';
      }
      var flag := found.value.0;
      options' := found.value.1;
      var value := p.value;
      var nextIdx := idx + 1;
      if value == "" && nextIdx < |args| {
        var nextStr := args[nextIdx];
        if nextStr[0] != '-' && nextStr[0] != '/' {
          value := nextStr;
          next := nextIdx + 1;
        }
      }
      StepActing(args, flags, idx, acc, flag, options', value, next);
      var s := flag.AddOption(value);
      if s.Fail? {
        failed := Some(s.error);
        return;
      }
      states' := states[flag := flag.State()];
    }

    /** The check after the option pass: every effective flag is validated,
        in no particular order, and the first required flag found that was
        never given stops the run. */
    method ValidateAll(flags: map<string, Flag>) returns (s: Status)
      modifies flags.Values`options
      ensures KeyCaches(flags.Values) == old(KeyCaches(flags.Values))
      ensures s.Pass? <==> Missing(old(StatesOf(flags.Values)), flags.Values) == {}
      ensures s.Fail? ==> exists f :: f in Missing(old(StatesOf(flags.Values)), flags.Values) && s.error == MissingRequired(f.Name)
      ensures s.Pass? ==> forall f :: f in flags.Values ==> Validated(old(f.State()), f.Required, f.Value) == Some(f.State())
      ensures s.Fail? ==> forall f :: f in flags.Values ==>
                f.State() == old(f.State()) || Validated(old(f.State()), f.Required, f.Value) == Some(f.State())
    {
      ghost var before := StatesOf(flags.Values);
      var remaining := flags.Values;
      while remaining != {}
        invariant remaining <= flags.Values
        invariant forall f :: f in flags.Values - remaining ==>
                    f !in Missing(before, flags.Values) && Validated(before[f], f.Required, f.Value) == Some(f.State())
        invariant forall f :: f in remaining ==> f.State() == before[f]
        decreases remaining
      {
        var flag :| flag in remaining;
        s := flag.Validate();
        if s.Fail? {
          assert flag in Missing(before, flags.Values);
          KeysKept(flags.Values);
          return;
        }
        remaining := remaining - {flag};
      }
      s := Pass;
      KeysKept(flags.Values);
    }

    /** build: resolve the command chain, collect its flags, run the option
        pass, validate, then show help or dispatch the chain. */
    method Build(tokens: seq<string>) returns (r: Outcome)
      requires Tokens(tokens) && |tokens| < AbortIndex
      modifies AllFlags(root)`used, AllFlags(root)`options
      ensures r.Failed? || fresh(r.ctx)
      ensures KeyCaches(AllFlags(root)) == old(KeyCaches(AllFlags(root)))
      ensures EffectiveOf(root, tokens).Values <= AllFlags(root)
      ensures BuildsAs(root, tokens, old(StatesOf(AllFlags(root))), StatesOf(AllFlags(root)), r)
    {
      ghost var tree := AllFlags(root);
      ghost var before := StatesOf(tree);
      ghost var res := Resolve(root, tokens);
      ghost var fs := EffectiveOf(root, tokens).Values;
      EffectiveWithinTree(root, tokens);
      ghost var start := Restricted(before, fs);
      var cmds, args := BuildCommands(tokens);
      var flags := BuildAllFlags(cmds);
      assert flags == EffectiveOf(root, tokens);
      ghost var pre := StatesOf(flags.Values);
      assert pre == start;
      assert cmds[1..] == res.chain;
      assert KeyCaches(tree) == old(KeyCaches(tree));
      label Parsing:
      r := ParseAndLaunch(cmds[1..], args, flags);
      assert forall f :: f in tree && f !in fs ==> StatesOf(tree)[f] == before[f];
      BuildConcluded(root, tokens, cmds[1..], args, flags, before, pre, StatesOf(flags.Values), StatesOf(tree), r);
      KeysKept@Parsing(tree);
    }

    /** The rest of build once the chain and its flags are known: the option
        pass, the validation of every flag, then help or dispatch. */
    method ParseAndLaunch(chain: seq<Command>, args: seq<string>, flags: map<string, Flag>)
      returns (r: Outcome)
      requires Tokens(args) && |chain| < AbortIndex
      modifies flags.Values`used, flags.Values`options
      ensures r.Failed? || fresh(r.ctx)
      ensures KeyCaches(flags.Values) == old(KeyCaches(flags.Values))
      ensures Concludes(root, chain, args, flags, old(StatesOf(flags.Values)), StatesOf(flags.Values), r)
    {
      var scanned := ParseOptions(args, flags);
      if scanned.Err? {
        return Failed(scanned.error);
      }
      var s := ValidateAll(flags);
      if s.Fail? {
        return Failed(s.error);
      }
      r := Launch(chain, scanned.value.params, scanned.value.options, scanned.value.isHelp);
    }

    /** The end of build: help is switched on when no command was selected
        and the root has none for that case, or when the first command is
        help, which is then dropped; the context is handed to the help command
        untouched, or dispatched from the start. */
    method Launch(chain: seq<Command>, params: seq<string>, options: map<string, Flag>, asked: bool)
      returns (r: Outcome)
      requires |chain| < AbortIndex
      ensures !r.Failed? && fresh(r.ctx)
      ensures r.ctx.args == params && r.ctx.flags == options && r.ctx.cmds == Dispatchable(chain)
      ensures r.ShowHelp? <==> WantsHelp(root, chain, asked)
      ensures r.ShowHelp? ==> r.ctx.index == -1 && r.ctx.trace == []
      ensures r.Dispatched? ==> r.ctx.trace == Runs(r.ctx.cmds, 0) && r.ctx.index == Final(r.ctx.cmds, 0)
    {
      var cmds := chain;
      var isHelp := asked;
      if !isHelp && |cmds| == 0 && root.FindSub(AppCommandName).None? {
        isHelp := true;
      }
      if |cmds| > 0 && cmds[0].Name == "help" {
        isHelp := true;
        cmds := cmds[1..];
      }
      var ctx := new Context(params, cmds, options);
      if isHelp {
        r := ShowHelp(ctx);
      } else {
        ctx.Next();
        r := Dispatched(ctx);
      }
    }

    /** Run: setup, then build. */
    method Run(tokens: seq<string>) returns (r: Outcome)
      requires Tokens(tokens) && |tokens| < AbortIndex
      modifies this`Name, this`root, AllFlags(root)`used, AllFlags(root)`options
      ensures Name == Text.TrimSpace(old(Name))
      ensures root == WithHelp(old(root))
      ensures KeyCaches(AllFlags(root)) == old(KeyCaches(AllFlags(root)))
      ensures EffectiveOf(root, tokens).Values <= AllFlags(root)
      ensures BuildsAs(root, tokens, old(StatesOf(AllFlags(root))), StatesOf(AllFlags(root)), r)
    {
      Setup();
      r := Build(tokens);
    }
  }

  /** The root as setup leaves it: unchanged when a child already answers to
      "help", otherwise with the help command appended to its children; either
      way "help" is then found and the tree holds the same flags. */
  function WithHelp(root: Command): (r: Command)
    ensures r.FindSub("help").Some?
    ensures root.FindSub("help").Some? ==> r == root
    ensures AllFlags(r) == AllFlags(root)
  {
    if root.FindSub("help").Some? then root
    else
      var r := root.(Subs := root.Subs + [HelpCommand()]);
      AddedChildFlags(root, HelpCommand());
      assert r.Subs[|r.Subs| - 1].IsCommand("help");
      r
  }

  /** A child without flags adds none to the tree. */
  lemma AddedChildFlags(c: Command, child: Command)
    requires AllFlags(child) == {}
    ensures AllFlags(c.(Subs := c.Subs + [child])) == AllFlags(c)
  {
    var c' := c.(Subs := c.Subs + [child]);
    forall f | f in AllFlags(c') ensures f in AllFlags(c) {
      if f !in c.Flags {
        var s :| s in c'.Subs && f in AllFlags(s);
        assert s in c.Subs;
      }
    }
    assert c'.Flags == c.Flags;
    forall f | f in AllFlags(c) ensures f in AllFlags(c') {
      if f !in c.Flags {
        var s :| s in c.Subs && f in AllFlags(s);
        assert s in c'.Subs;
      }
    }
  }

  /** Concludes reads the final states of the effective flags only. */
  lemma ConcludesOn(root: Command, chain: seq<Command>, args: seq<string>, flags: map<string, Flag>,
                    start: map<Flag, FlagState>, a: map<Flag, FlagState>, b: map<Flag, FlagState>, r: Outcome)
    requires |chain| < AbortIndex && Tokens(args)
    requires flags.Values <= start.Keys && flags.Values <= a.Keys && flags.Values <= b.Keys
    requires forall f :: f in flags.Values ==> a[f] == b[f]
    requires Concludes(root, chain, args, flags, start, a, r)
    ensures Concludes(root, chain, args, flags, start, b, r)
  {
  }

  /** build ends as `BuildsAs` says once the effective flags conclude as
      `Concludes` says and the other flags of the tree are left as they were. */
  lemma BuildConcluded(root: Command, tokens: seq<string>, chain: seq<Command>, args: seq<string>,
                       flags: map<string, Flag>, before: map<Flag, FlagState>, start: map<Flag, FlagState>,
                       a: map<Flag, FlagState>, after: map<Flag, FlagState>, r: Outcome)
    requires Tokens(tokens) && |tokens| < AbortIndex
    requires chain == Resolve(root, tokens).chain && args == Resolve(root, tokens).args
    requires flags == EffectiveOf(root, tokens) && flags.Values <= before.Keys
    requires start == Restricted(before, flags.Values)
    requires flags.Values <= a.Keys && flags.Values <= after.Keys
    requires forall f :: f in flags.Values ==> a[f] == after[f]
    requires forall f :: f in before && f !in flags.Values ==> f in after && after[f] == before[f]
    requires Concludes(root, chain, args, flags, start, a, r)
    ensures BuildsAs(root, tokens, before, after, r)
  {
    ConcludesOn(root, chain, args, flags, start, a, after, r);
  }

  /** Flags whose fields did not change keep their states and key caches. */
  twostate lemma FlagsKept(fs: set<Flag>)
    requires forall f :: f in fs ==> old(allocated(f)) && unchanged(f)
    ensures StatesOf(fs) == old(StatesOf(fs))
    ensures KeyCaches(fs) == old(KeyCaches(fs))
  {
  }

  /** Flags whose key fields did not change keep their key caches. */
  twostate lemma KeysKept(fs: set<Flag>)
    requires forall f :: f in fs ==> old(allocated(f)) && f.key == old(f.key)
    ensures KeyCaches(fs) == old(KeyCaches(fs))
  {
  }
}
