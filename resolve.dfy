/** app.go buildCommands and buildAllFlags, as specifications on values:
    which commands a token vector selects, which tokens are left over as
    arguments, and which flags the selected commands make known. */
module CliResolve {
  import opened Errors
  import opened CliFlag
  import opened CliCommand
  import opened CliOption

  /** The commands selected below the root, and the tokens left for the option pass. */
  datatype Resolution = Resolution(chain: seq<Command>, args: seq<string>)

  /** The command whose children the next bare token is looked up among, once
      `sub` was selected: `sub` itself, unless it is the help command. */
  function Follow(last: Command, sub: Command): (c: Command)
    ensures c == sub || c == last
    ensures sub.Name != "help" ==> c == sub
    ensures last.Name != "help" ==> c.Name != "help"
  {
    if sub.Name != "help" then sub else last
  }

  /** The walk of buildCommands from `last` over `tokens`: option-style tokens
      are set aside in order, a bare token naming a child of `last` extends the
      chain, and the first bare token that names none ends the walk, leaving
      itself and all later tokens as arguments. */
  function Resolve(last: Command, tokens: seq<string>): (r: Resolution)
    requires Tokens(tokens)
    ensures |r.chain| + |r.args| == |tokens|
    ensures Tokens(r.args)
  {
    if tokens == [] then Resolution([], [])
    else if IsOptionStyle(tokens[0]) then
      var r := Resolve(last, tokens[1..]);
      Resolution(r.chain, [tokens[0]] + r.args)
    else match last.FindSub(tokens[0])
      case None => Resolution([], tokens)
      case Some(sub) =>
        var r := Resolve(Follow(last, sub), tokens[1..]);
        Resolution([sub] + r.chain, r.args)
  }

  /** The most recent command of `chain` that is not the help command, or
      `last` when there is none. */
  function LastNonHelp(last: Command, chain: seq<Command>): (c: Command)
    ensures c == last || (c in chain && c.Name != "help")
    ensures chain != [] && chain[|chain| - 1].Name != "help" ==> c == chain[|chain| - 1]
    decreases |chain|
  {
    if chain == [] then last
    else LastNonHelp(Follow(last, chain[0]), chain[1..])
  }

  /** The option-style tokens of `ts`, in order. */
  function OptionTokens(ts: seq<string>): (r: seq<string>)
    requires Tokens(ts)
    ensures forall i :: 0 <= i < |r| ==> r[i] in ts && IsOptionStyle(r[i])
  {
    if ts == [] then []
    else (if IsOptionStyle(ts[0]) then [ts[0]] else []) + OptionTokens(ts[1..])
  }

  /** The bare tokens of `ts`, in order. */
  function BareTokens(ts: seq<string>): (r: seq<string>)
    requires Tokens(ts)
    ensures forall i :: 0 <= i < |r| ==> r[i] in ts && !IsOptionStyle(r[i])
  {
    if ts == [] then []
    else (if IsOptionStyle(ts[0]) then [] else [ts[0]]) + BareTokens(ts[1..])
  }

  /** The walk from `last` over `tokens` stops at position `s`: the arguments
      are the option-style tokens before `s` followed by everything from `s`
      on; the bare tokens before `s` selected the chain, as Selected says; and
      the token at `s`, if any, is bare and names no child of the most recent
      non-help command. */
  predicate StopsAt(last: Command, tokens: seq<string>, s: nat)
    requires Tokens(tokens)
  {
    s <= |tokens| &&
    var r := Resolve(last, tokens);
    && r.args == OptionTokens(tokens[..s]) + tokens[s..]
    && Selected(last, r.chain, BareTokens(tokens[..s]))
    && (s < |tokens| ==> !IsOptionStyle(tokens[s]) && LastNonHelp(last, r.chain).FindSub(tokens[s]).None?)
  }

  /** The k-th bare token selected the k-th command of the chain among the
      children of the most recent non-help command before it. */
  predicate Selected(last: Command, chain: seq<Command>, bare: seq<string>) {
    && |chain| == |bare|
    && forall k :: 0 <= k < |bare| ==> LastNonHelp(last, chain[..k]).FindSub(bare[k]) == Some(chain[k])
  }

  /** Every walk stops somewhere, as StopsAt describes. */
  lemma {:induction false} ResolveStops(last: Command, tokens: seq<string>)
    requires Tokens(tokens)
    ensures exists s :: StopsAt(last, tokens, s)
    decreases |tokens|
  {
    if tokens == [] || (!IsOptionStyle(tokens[0]) && last.FindSub(tokens[0]).None?) {
      assert Selected(last, [], []);
      assert StopsAt(last, tokens, 0);
    } else if IsOptionStyle(tokens[0]) {
      ResolveStops(last, tokens[1..]);
      var s': nat :| StopsAt(last, tokens[1..], s');
      StopsAfterOption(last, tokens, s');
    } else {
      var sub := last.FindSub(tokens[0]).value;
      ResolveStops(Follow(last, sub), tokens[1..]);
      var s': nat :| StopsAt(Follow(last, sub), tokens[1..], s');
      StopsAfterSub(last, tokens, s');
    }
  }

  /** An option-style token in front moves the stop one place on. */
  lemma StopsAfterOption(last: Command, tokens: seq<string>, s': nat)
    requires Tokens(tokens) && tokens != [] && IsOptionStyle(tokens[0])
    requires StopsAt(last, tokens[1..], s')
    ensures StopsAt(last, tokens, s' + 1)
  {
    var rest := tokens[1..];
    assert Resolve(last, tokens) == Resolution(Resolve(last, rest).chain, [tokens[0]] + Resolve(last, rest).args);
    SplitAfterOption(tokens, s');
    assert tokens[s' + 1..] == rest[s'..];
  }

  /** Setting an option-style token aside in front of a prefix of the tokens. */
  lemma SplitAfterOption(tokens: seq<string>, s': nat)
    requires Tokens(tokens) && tokens != [] && IsOptionStyle(tokens[0]) && s' < |tokens|
    ensures OptionTokens(tokens[..s' + 1]) == [tokens[0]] + OptionTokens(tokens[1..][..s'])
    ensures BareTokens(tokens[..s' + 1]) == BareTokens(tokens[1..][..s'])
  {
    var front := tokens[..s' + 1];
    assert front[0] == tokens[0] && front[1..] == tokens[1..][..s'];
  }

  /** A bare token that selects a child in front moves the stop one place on. */
  lemma StopsAfterSub(last: Command, tokens: seq<string>, s': nat)
    requires Tokens(tokens) && tokens != [] && !IsOptionStyle(tokens[0])
    requires last.FindSub(tokens[0]).Some?
    requires StopsAt(Follow(last, last.FindSub(tokens[0]).value), tokens[1..], s')
    ensures StopsAt(last, tokens, s' + 1)
  {
    var sub := last.FindSub(tokens[0]).value;
    var next := Follow(last, sub);
    var rest := tokens[1..];
    var r' := Resolve(next, rest);
    assert Resolve(last, tokens) == Resolution([sub] + r'.chain, r'.args);
    SplitAfterBare(tokens, s');
    assert tokens[s' + 1..] == rest[s'..];
    SelectedCons(last, sub, r'.chain, tokens[0], BareTokens(rest[..s']));
  }

  /** Taking a bare token in front of a prefix of the tokens. */
  lemma SplitAfterBare(tokens: seq<string>, s': nat)
    requires Tokens(tokens) && tokens != [] && !IsOptionStyle(tokens[0]) && s' < |tokens|
    ensures OptionTokens(tokens[..s' + 1]) == OptionTokens(tokens[1..][..s'])
    ensures BareTokens(tokens[..s' + 1]) == [tokens[0]] + BareTokens(tokens[1..][..s'])
  {
    var front := tokens[..s' + 1];
    assert front[0] == tokens[0] && front[1..] == tokens[1..][..s'];
  }

  /** Selecting `sub` by `t` and then the rest from where that leads. */
  lemma SelectedCons(last: Command, sub: Command, chain: seq<Command>, t: string, bare: seq<string>)
    requires last.FindSub(t) == Some(sub)
    requires Selected(Follow(last, sub), chain, bare)
    ensures Selected(last, [sub] + chain, [t] + bare)
    ensures LastNonHelp(last, [sub] + chain) == LastNonHelp(Follow(last, sub), chain)
  {
    forall k | 0 <= k < |chain| + 1
      ensures LastNonHelp(last, ([sub] + chain)[..k]).FindSub(([t] + bare)[k]) == Some(([sub] + chain)[k])
    {
      SelectedConsAt(last, sub, chain, t, bare, k);
    }
    LastNonHelpCons(last, sub, chain);
  }

  /** SelectedCons at one position of the longer chain. */
  lemma SelectedConsAt(last: Command, sub: Command, chain: seq<Command>, t: string, bare: seq<string>, k: nat)
    requires last.FindSub(t) == Some(sub)
    requires Selected(Follow(last, sub), chain, bare)
    requires k < |chain| + 1
    ensures LastNonHelp(last, ([sub] + chain)[..k]).FindSub(([t] + bare)[k]) == Some(([sub] + chain)[k])
  {
    var all := [sub] + chain;
    if k > 0 {
      assert all[..k] == [sub] + chain[..k - 1];
      LastNonHelpCons(last, sub, chain[..k - 1]);
      assert ([t] + bare)[k] == bare[k - 1] && all[k] == chain[k - 1];
    } else {
      assert all[..0] == [];
    }
  }

  /** The walk past one more command in front. */
  lemma LastNonHelpCons(last: Command, sub: Command, chain: seq<Command>)
    ensures LastNonHelp(last, [sub] + chain) == LastNonHelp(Follow(last, sub), chain)
  {
    assert ([sub] + chain)[1..] == chain;
  }

  /** Every command of the chain is the root or lies below it, so its flags
      are among the tree's. */
  lemma {:induction false} ChainWithinTree(last: Command, tokens: seq<string>)
    requires Tokens(tokens)
    ensures forall c :: c in Resolve(last, tokens).chain ==> AllFlags(c) <= AllFlags(last)
    decreases |tokens|
  {
    if tokens == [] {
    } else if IsOptionStyle(tokens[0]) {
      ChainWithinTree(last, tokens[1..]);
    } else if last.FindSub(tokens[0]).Some? {
      var sub := last.FindSub(tokens[0]).value;
      ChildFlags(last, tokens[0]);
      ChainWithinTree(Follow(last, sub), tokens[1..]);
    }
  }

  /** A flag is entered in the effective map when it has a name or a short name. */
  predicate Registered(f: Flag) {
    f.Name != "" || f.Short != ""
  }

  /** The flags of `cmds`, command by command in chain order, each command's
      in declaration order. */
  function FlagSeq(cmds: seq<Command>): seq<Flag> {
    if cmds == [] then []
    else FlagSeq(cmds[..|cmds| - 1]) + cmds[|cmds| - 1].Flags
  }

  /** The map buildAllFlags fills from `fs`: each registered flag is written
      under its Name, a later write replacing an earlier one. */
  function Register(fs: seq<Flag>): (m: map<string, Flag>)
    ensures forall k :: k in m ==> m[k].Name == k && Registered(m[k]) && m[k] in fs
    ensures forall f :: f in fs && Registered(f) ==> f.Name in m
  {
    if fs == [] then map[]
    else
      var init := fs[..|fs| - 1];
      var f := fs[|fs| - 1];
      assert fs == init + [f];
      var m := Register(init);
      if Registered(f) then m[f.Name := f] else m
  }

  /** Writing one more flag into the map. */
  lemma RegisterSnoc(fs: seq<Flag>, f: Flag)
    ensures Register(fs + [f]) == if Registered(f) then Register(fs)[f.Name := f] else Register(fs)
  {
    assert (fs + [f])[..|fs|] == fs;
  }

  /** The flags of one more command of the chain. */
  lemma FlagSeqSnoc(cmds: seq<Command>, i: nat)
    requires i < |cmds|
    ensures FlagSeq(cmds[..i + 1]) == FlagSeq(cmds[..i]) + cmds[i].Flags
  {
    assert cmds[..i + 1][..i] == cmds[..i];
  }

  /** Every flag of the sequence comes from a command of the chain. */
  lemma {:induction false} FlagSeqFrom(cmds: seq<Command>)
    ensures forall f :: f in FlagSeq(cmds) ==> exists c :: c in cmds && f in c.Flags
  {
    if cmds != [] {
      var init := cmds[..|cmds| - 1];
      FlagSeqFrom(init);
      assert forall c :: c in init ==> c in cmds;
    }
  }

  /** Every flag of every command of the chain is in the sequence. */
  lemma {:induction false} FlagSeqHas(cmds: seq<Command>)
    ensures forall c, f :: c in cmds && f in c.Flags ==> f in FlagSeq(cmds)
  {
    if cmds != [] {
      var init := cmds[..|cmds| - 1];
      FlagSeqHas(init);
      assert cmds == init + [cmds[|cmds| - 1]];
    }
  }

  /** The flags that the commands of a chain make known, by name: each known
      name is a registered flag's own Name, and every registered flag of the
      chain makes its Name known. */
  function EffectiveFlags(cmds: seq<Command>): (m: map<string, Flag>)
    ensures forall k :: k in m ==> m[k].Name == k && Registered(m[k])
    ensures forall c, f :: c in cmds && f in c.Flags && Registered(f) ==> f.Name in m
  {
    FlagSeqHas(cmds);
    Register(FlagSeq(cmds))
  }

  /** The position of the last registered flag of `fs` named `k`, or -1. */
  function LastNamed(fs: seq<Flag>, k: string): (i: int)
    ensures -1 <= i < |fs|
    ensures i >= 0 ==> Registered(fs[i]) && fs[i].Name == k
    ensures forall j :: i < j < |fs| ==> !(Registered(fs[j]) && fs[j].Name == k)
  {
    if fs == [] then -1
    else if Registered(fs[|fs| - 1]) && fs[|fs| - 1].Name == k then |fs| - 1
    else LastNamed(fs[..|fs| - 1], k)
  }

  /** A name is in the effective map exactly when some registered flag carries
      it, and it maps to the last such flag. */
  lemma {:induction false} RegisterLastWins(fs: seq<Flag>, k: string)
    ensures k in Register(fs) <==> LastNamed(fs, k) >= 0
    ensures k in Register(fs) ==> Register(fs)[k] == fs[LastNamed(fs, k)]
    decreases |fs|
  {
    if fs != [] {
      var init := fs[..|fs| - 1];
      RegisterLastWins(init, k);
      var i := LastNamed(init, k);
      if i >= 0 {
        assert init[i] == fs[i];
      }
    }
  }

  /** A short name alone never makes a key: a flag is found only under its Name. */
  lemma ShortNameIsNoKey(fs: seq<Flag>, k: string)
    requires forall f :: f in fs ==> f.Name != k
    ensures k !in Register(fs)
  {
    RegisterLastWins(fs, k);
  }

  /** The effective flags of a resolved chain all belong to the tree, so
      parsing changes no flag outside it. */
  lemma EffectiveWithinTree(root: Command, tokens: seq<string>)
    requires Tokens(tokens)
    ensures EffectiveFlags([root] + Resolve(root, tokens).chain).Values <= AllFlags(root)
  {
    var cmds := [root] + Resolve(root, tokens).chain;
    ChainWithinTree(root, tokens);
    FlagSeqFrom(cmds);
    forall f | f in EffectiveFlags(cmds).Values
      ensures f in AllFlags(root)
    {
      var k :| k in EffectiveFlags(cmds) && EffectiveFlags(cmds)[k] == f;
      var c :| c in cmds && f in c.Flags;
      assert f in AllFlags(c);
    }
  }
}
