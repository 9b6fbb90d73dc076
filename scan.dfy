/** The option pass of app.go build, as a specification on values: how the
    arguments left by the command walk become positional parameters, seen
    flags, flag values and the help switch. */
module CliScan {
  import opened Errors
  import opened CliFlag
  import opened CliOption

  /** What the pass has built so far: the flags seen (by name), the positional
      parameters, whether help was asked for, and the state of every flag. */
  datatype Scanned = Scanned(
    options: map<string, Flag>,
    params: seq<string>,
    isHelp: bool,
    states: map<Flag, FlagState>)

  /** The keys that ask for help instead of setting a flag. */
  predicate IsHelpKey(key: string) {
    key == "help" || key == "h"
  }

  /** A combined short option: a single dash and more than one character. */
  predicate IsCombined(p: Parsed) {
    p.style == Single && |p.key| > 1
  }

  /** Every flag is known under its own Name, as in the effective map. */
  predicate NamedBy(flags: map<string, Flag>) {
    forall k :: k in flags ==> flags[k].Name == k
  }

  /** The flag of every character of a combined short option is marked as
      seen; the first character without a flag is an error. */
  function MarkAll(chars: string, flags: map<string, Flag>, options: map<string, Flag>): (r: Result<map<string, Flag>>)
    ensures r.Ok? <==> forall i :: 0 <= i < |chars| ==> [chars[i]] in flags
    ensures r.Err? ==> r.error.UnknownOption? && |r.error.key| == 1 && r.error.key[0] in chars && r.error.key !in flags
    decreases |chars|
  {
    if chars == [] then Ok(options)
    else
      var st := [chars[0]];
      if st !in flags then Err(UnknownOption(st))
      else
        var r := MarkAll(chars[1..], flags, options[flags[st].Name := flags[st]]);
        assert forall i :: 1 <= i < |chars| ==> chars[i] == chars[1..][i - 1];
        r
  }

  /** The flag an option key selects, with the seen-map updated: every
      character of a combined short option must name a flag and the last one
      is selected; any other key must name a flag itself. */
  function Lookup(p: Parsed, flags: map<string, Flag>, options: map<string, Flag>): (r: Result<(Flag, map<string, Flag>)>)
    requires p.key != ""
    ensures r.Ok? ==> r.value.0 in flags.Values
  {
    if IsCombined(p) then
      match MarkAll(p.key, flags, options)
      case Err(e) => Err(e)
      case Ok(o) => Ok((flags[[p.key[|p.key| - 1]]], o))
    else if p.key !in flags then Err(UnknownOption(p.key))
    else Ok((flags[p.key], options[flags[p.key].Name := flags[p.key]]))
  }

  /** The key of `p` names registered flags: every character for a combined
      short option, the key itself otherwise. */
  predicate Known(p: Parsed, flags: map<string, Flag>) {
    if IsCombined(p) then forall i :: 0 <= i < |p.key| ==> [p.key[i]] in flags
    else p.key in flags
  }

  /** A lookup succeeds exactly when the key is known; a failed one names
      the key, or the first character, that is not. */
  lemma LookupKnown(p: Parsed, flags: map<string, Flag>, options: map<string, Flag>)
    requires p.key != ""
    ensures Lookup(p, flags, options).Ok? <==> Known(p, flags)
    ensures Lookup(p, flags, options).Err? ==> Lookup(p, flags, options).error.UnknownOption?
  {
  }

  /** An option token that acts on a flag: its key is neither empty nor help. */
  predicate Acts(t: string)
    requires t != ""
  {
    IsOptionStyle(t) && ParseOption(t).key != "" && !IsHelpKey(ParseOption(t).key)
  }

  /** The token at `i` is taken by the lookahead: the token before it acts on
      a flag with no inline value, and this one is bare. */
  function IsValue(args: seq<string>, i: int): (b: bool)
    requires Tokens(args)
    ensures b ==> 0 < i < |args| && !Acts(args[i]) && Acts(args[i - 1])
  {
    0 < i < |args| && !IsOptionStyle(args[i]) && Acts(args[i - 1]) && ParseOption(args[i - 1]).value == ""
  }

  /** The value that the acting option token at `i` gives its flag. */
  function ValueAt(args: seq<string>, i: nat): (r: string)
    requires Tokens(args) && i < |args|
    ensures r == ParseOption(args[i]).value || (i + 1 < |args| && r == args[i + 1])
    ensures ParseOption(args[i]).value != "" ==> r == ParseOption(args[i]).value
    ensures (Acts(args[i]) && ParseOption(args[i]).value == "" && i + 1 < |args| && !IsOptionStyle(args[i + 1]))
            ==> r == args[i + 1]
  {
    if IsValue(args, i + 1) then args[i + 1] else ParseOption(args[i]).value
  }

  /** Where the pass goes on after one token: the next position and what it
      has built by then. */
  datatype Move = Move(next: nat, acc: Scanned)

  /** One turn of the loop in build, on the token at `idx`: a bare token
      becomes a parameter, an empty key is skipped, a help key switches help
      on, and any other key selects a flag, which takes the token's value
      (or the next token, by lookahead) as one more occurrence. */
  function Step(args: seq<string>, flags: map<string, Flag>, idx: nat, acc: Scanned): (r: Result<Move>)
    requires Tokens(args) && idx < |args|
    requires flags.Values <= acc.states.Keys
    ensures r.Ok? ==> idx < r.value.next <= |args| && r.value.acc.states.Keys == acc.states.Keys
  {
    var str := args[idx];
    var p := ParseOption(str);
    if p.style == Unknown then Ok(Move(idx + 1, acc.(params := acc.params + [str])))
    else if p.key == "" then Ok(Move(idx + 1, acc))
    else if IsHelpKey(p.key) then Ok(Move(idx + 1, acc.(isHelp := true)))
    else match Lookup(p, flags, acc.options)
      case Err(e) => Err(e)
      case Ok((flag, options)) =>
        var next := if IsValue(args, idx + 1) then idx + 2 else idx + 1;
        match Added(acc.states[flag], flag.Multiple, ValueAt(args, idx))
        case None => Err(NotMultiple(flag.Name))
        case Some(s) => Ok(Move(next, Scanned(options, acc.params, acc.isHelp, acc.states[flag := s])))
  }

  /** The option pass from position `idx` to the end, or the first error. */
  function Scan(args: seq<string>, flags: map<string, Flag>, idx: nat, acc: Scanned): (r: Result<Scanned>)
    requires Tokens(args) && idx <= |args|
    requires flags.Values <= acc.states.Keys
    ensures r.Ok? ==> r.value.states.Keys == acc.states.Keys
    decreases |args| - idx
  {
    if idx == |args| then Ok(acc)
    else match Step(args, flags, idx, acc)
      case Err(e) => Err(e)
      case Ok(m) => Scan(args, flags, m.next, m.acc)
  }

  /** Where the pass stops and what it has built by then: the end of the
      tokens when it succeeds, otherwise the token that fails, which changes
      nothing and whose error ends the pass. */
  function ScanUntil(args: seq<string>, flags: map<string, Flag>, idx: nat, acc: Scanned): (r: Move)
    requires Tokens(args) && idx <= |args|
    requires flags.Values <= acc.states.Keys
    ensures idx <= r.next <= |args| && r.acc.states.Keys == acc.states.Keys
    ensures r.next == |args| ==> Scan(args, flags, idx, acc) == Ok(r.acc)
    ensures r.next < |args| ==>
              && Step(args, flags, r.next, r.acc).Err?
              && Scan(args, flags, idx, acc) == Err(Step(args, flags, r.next, r.acc).error)
    decreases |args| - idx
  {
    if idx == |args| then Move(idx, acc)
    else match Step(args, flags, idx, acc)
      case Err(_) => Move(idx, acc)
      case Ok(m) => ScanUntil(args, flags, m.next, m.acc)
  }

  /** A turn that succeeds hands the rest of the pass its position and state. */
  lemma ScanStep(args: seq<string>, flags: map<string, Flag>, idx: nat, acc: Scanned)
    requires Tokens(args) && idx < |args| && flags.Values <= acc.states.Keys
    requires Step(args, flags, idx, acc).Ok?
    ensures var m := Step(args, flags, idx, acc).value;
            Scan(args, flags, idx, acc) == Scan(args, flags, m.next, m.acc)
  {
  }

  /** The bare tokens from `i` on that the lookahead does not take, in order. */
  function ParamsFrom(args: seq<string>, i: nat): seq<string>
    requires Tokens(args)
    decreases |args| - i
  {
    if i >= |args| then []
    else (if !IsOptionStyle(args[i]) && !IsValue(args, i) then [args[i]] else []) + ParamsFrom(args, i + 1)
  }

  /** Help was asked for by some token from `i` on. */
  predicate HelpFrom(args: seq<string>, i: nat)
    requires Tokens(args)
  {
    exists j :: i <= j < |args| && IsOptionStyle(args[j]) && IsHelpKey(ParseOption(args[j]).key)
  }

  /** The positional parameters are exactly the bare tokens the lookahead did
      not take, in the order given; help is on exactly when a help token
      occurs. */
  lemma {:induction false} ScanParamsAndHelp(args: seq<string>, flags: map<string, Flag>, idx: nat, acc: Scanned)
    requires Tokens(args) && idx <= |args| && flags.Values <= acc.states.Keys
    requires !IsValue(args, idx)
    ensures var r := Scan(args, flags, idx, acc);
            r.Ok? ==>
              && r.value.params == acc.params + ParamsFrom(args, idx)
              && (r.value.isHelp <==> acc.isHelp || HelpFrom(args, idx))
    decreases |args| - idx
  {
    if idx < |args| && Step(args, flags, idx, acc).Ok? {
      var m := Step(args, flags, idx, acc).value;
      StepParamsAndHelp(args, flags, idx, acc);
      ScanParamsAndHelp(args, flags, m.next, m.acc);
    }
  }

  /** One turn keeps what ScanParamsAndHelp states: the parameters built so far
      plus those still to come, and whether help is or will be asked for. */
  lemma StepParamsAndHelp(args: seq<string>, flags: map<string, Flag>, idx: nat, acc: Scanned)
    requires Tokens(args) && idx < |args| && flags.Values <= acc.states.Keys
    requires !IsValue(args, idx)
    requires Step(args, flags, idx, acc).Ok?
    ensures var m := Step(args, flags, idx, acc).value;
            && !IsValue(args, m.next)
            && acc.params + ParamsFrom(args, idx) == m.acc.params + ParamsFrom(args, m.next)
            && (acc.isHelp || HelpFrom(args, idx) <==> m.acc.isHelp || HelpFrom(args, m.next))
  {
    var t := args[idx];
    HelpFromStep(args, idx);
    if !IsOptionStyle(t) {
      assert ParamsFrom(args, idx) == [t] + ParamsFrom(args, idx + 1);
      assert acc.params + ([t] + ParamsFrom(args, idx + 1)) == (acc.params + [t]) + ParamsFrom(args, idx + 1);
    } else {
      StepOptionShape(args, flags, idx, acc);
      OptionParamsFrom(args, idx);
    }
  }

  /** An option-style token is never a parameter, and neither is a value the
      lookahead takes after it; the token after those is not taken either. */
  lemma OptionParamsFrom(args: seq<string>, idx: nat)
    requires Tokens(args) && idx < |args| && IsOptionStyle(args[idx])
    ensures var next := if IsValue(args, idx + 1) then idx + 2 else idx + 1;
            && !IsValue(args, next)
            && ParamsFrom(args, idx) == ParamsFrom(args, next)
            && (HelpFrom(args, idx + 1) <==> HelpFrom(args, next))
  {
    assert ParamsFrom(args, idx) == ParamsFrom(args, idx + 1);
    if IsValue(args, idx + 1) {
      HelpFromBare(args, idx + 1);
      assert ParamsFrom(args, idx + 1) == ParamsFrom(args, idx + 2);
      assert !Acts(args[idx + 1]);
    }
  }

  /** Help from `i` on: asked by the token at `i`, or by a later one. */
  lemma HelpFromStep(args: seq<string>, i: nat)
    requires Tokens(args) && i < |args|
    ensures HelpFrom(args, i) <==> (IsOptionStyle(args[i]) && IsHelpKey(ParseOption(args[i]).key)) || HelpFrom(args, i + 1)
  {
    if HelpFrom(args, i + 1) {
      var j :| i + 1 <= j < |args| && IsOptionStyle(args[j]) && IsHelpKey(ParseOption(args[j]).key);
      assert i <= j;
    }
  }

  /** A bare token asks for no help. */
  lemma HelpFromBare(args: seq<string>, i: nat)
    requires Tokens(args) && i < |args| && !IsOptionStyle(args[i])
    ensures HelpFrom(args, i) <==> HelpFrom(args, i + 1)
  {
    if HelpFrom(args, i) {
      var j :| i <= j < |args| && IsOptionStyle(args[j]) && IsHelpKey(ParseOption(args[j]).key);
      assert j != i;
    }
  }

  /** Where one turn on an option-style token goes: past the token, and past
      the next one too when the lookahead takes it; parameters are untouched
      and help is switched on by a help key. */
  lemma StepOptionShape(args: seq<string>, flags: map<string, Flag>, idx: nat, acc: Scanned)
    requires Tokens(args) && idx < |args| && flags.Values <= acc.states.Keys
    requires IsOptionStyle(args[idx])
    requires Step(args, flags, idx, acc).Ok?
    ensures var m := Step(args, flags, idx, acc).value;
            && m.next == (if IsValue(args, idx + 1) then idx + 2 else idx + 1)
            && m.acc.params == acc.params
            && (m.acc.isHelp <==> acc.isHelp || IsHelpKey(ParseOption(args[idx]).key))
  {
    var p := ParseOption(args[idx]);
    if p.key != "" && !IsHelpKey(p.key) {
      var flag := Lookup(p, flags, acc.options).value.0;
      assert Added(acc.states[flag], flag.Multiple, ValueAt(args, idx)).Some?;
    }
  }

  /** The keys an option token marks as seen. */
  function KeysOf(t: string): (ks: set<string>)
    requires t != ""
  {
    if !Acts(t) then {}
    else
      var p := ParseOption(t);
      if IsCombined(p) then set i | 0 <= i < |p.key| :: [p.key[i]] else {p.key}
  }

  /** The keys marked as seen by the tokens from `i` on. */
  function Mentioned(args: seq<string>, i: nat): set<string>
    requires Tokens(args)
    decreases |args| - i
  {
    if i >= |args| then {} else KeysOf(args[i]) + Mentioned(args, i + 1)
  }

  /** A pass that succeeds knew every key it met, and its seen-map holds
      exactly the flags those keys name, on top of what it started with. */
  lemma {:induction false} ScanOptions(args: seq<string>, flags: map<string, Flag>, idx: nat, acc: Scanned)
    requires Tokens(args) && idx <= |args| && flags.Values <= acc.states.Keys
    requires NamedBy(flags)
    ensures var r := Scan(args, flags, idx, acc);
            r.Ok? ==>
              && Mentioned(args, idx) <= flags.Keys
              && r.value.options.Keys == acc.options.Keys + Mentioned(args, idx)
              && forall k :: k in r.value.options ==>
                   r.value.options[k] == if k in Mentioned(args, idx) then flags[k] else acc.options[k]
    decreases |args| - idx
  {
    if idx < |args| && Step(args, flags, idx, acc).Ok? {
      var m := Step(args, flags, idx, acc).value;
      StepOptions(args, flags, idx, acc);
      ScanOptions(args, flags, m.next, m.acc);
    }
  }

  /** One turn marks exactly the keys of its token as seen, and the keys still
      to come are those of the tokens after it. */
  lemma StepOptions(args: seq<string>, flags: map<string, Flag>, idx: nat, acc: Scanned)
    requires Tokens(args) && idx < |args| && flags.Values <= acc.states.Keys
    requires NamedBy(flags)
    requires Step(args, flags, idx, acc).Ok?
    ensures var m := Step(args, flags, idx, acc).value;
            var ks := KeysOf(args[idx]);
            && Mentioned(args, idx) == ks + Mentioned(args, m.next)
            && ks <= flags.Keys
            && m.acc.options.Keys == acc.options.Keys + ks
            && forall k :: k in m.acc.options ==> m.acc.options[k] == if k in ks then flags[k] else acc.options[k]
  {
    StepMarks(args, flags, idx, acc);
    MentionedStep(args, idx);
  }

  /** What one turn marks as seen, and where it goes on. */
  lemma StepMarks(args: seq<string>, flags: map<string, Flag>, idx: nat, acc: Scanned)
    requires Tokens(args) && idx < |args| && flags.Values <= acc.states.Keys
    requires NamedBy(flags)
    requires Step(args, flags, idx, acc).Ok?
    ensures var m := Step(args, flags, idx, acc).value;
            var ks := KeysOf(args[idx]);
            && m.next == (if IsValue(args, idx + 1) then idx + 2 else idx + 1)
            && ks <= flags.Keys
            && m.acc.options.Keys == acc.options.Keys + ks
            && forall k :: k in m.acc.options ==> m.acc.options[k] == if k in ks then flags[k] else acc.options[k]
  {
    var t := args[idx];
    if Acts(t) {
      LookupMarks(ParseOption(t), flags, acc.options);
    }
  }

  /** The keys from `idx` on: those of the token at `idx`, then those from
      past its lookahead value, which marks nothing. */
  lemma MentionedStep(args: seq<string>, idx: nat)
    requires Tokens(args) && idx < |args|
    ensures var next := if IsValue(args, idx + 1) then idx + 2 else idx + 1;
            Mentioned(args, idx) == KeysOf(args[idx]) + Mentioned(args, next)
  {
    if IsValue(args, idx + 1) {
      assert KeysOf(args[idx + 1]) == {};
    }
  }

  /** Looking up a key marks exactly the keys of its token as seen. */
  lemma LookupMarks(p: Parsed, flags: map<string, Flag>, options: map<string, Flag>)
    requires p.key != "" && NamedBy(flags)
    requires Lookup(p, flags, options).Ok?
    ensures var ks := if IsCombined(p) then set i | 0 <= i < |p.key| :: [p.key[i]] else {p.key};
            var o := Lookup(p, flags, options).value.1;
            && ks <= flags.Keys
            && o.Keys == options.Keys + ks
            && forall k :: k in o ==> o[k] == if k in ks then flags[k] else options[k]
  {
    if IsCombined(p) {
      MarkAllMarks(p.key, flags, options);
    }
  }

  /** MarkAll marks the flag of every character and nothing else. */
  lemma {:induction false} MarkAllMarks(chars: string, flags: map<string, Flag>, options: map<string, Flag>)
    requires NamedBy(flags)
    requires MarkAll(chars, flags, options).Ok?
    ensures var ks := set i | 0 <= i < |chars| :: [chars[i]];
            var o := MarkAll(chars, flags, options).value;
            && o.Keys == options.Keys + ks
            && forall k :: k in o ==> o[k] == if k in ks then flags[k] else options[k]
    decreases |chars|
  {
    if chars != [] {
      var st := [chars[0]];
      MarkAllMarks(chars[1..], flags, options[st := flags[st]]);
      var ks := set i | 0 <= i < |chars| :: [chars[i]];
      var ks' := set i | 0 <= i < |chars[1..]| :: [chars[1..][i]];
      assert ks == {st} + ks' by {
        forall k | k in ks ensures k in {st} + ks' {
          var i :| 0 <= i < |chars| && k == [chars[i]];
          if i > 0 { assert chars[1..][i - 1] == chars[i]; }
        }
      }
    }
  }

  /** The flag an acting option token gives its value to. */
  function Target(t: string, flags: map<string, Flag>): Option<Flag>
    requires t != ""
  {
    var p := ParseOption(t);
    var key := if IsCombined(p) then [p.key[|p.key| - 1]] else p.key;
    if Acts(t) && key in flags then Some(flags[key]) else None
  }

  /** The values that the tokens from `i` up to `j` give to flag `f`, in order. */
  function ValuesBetween(args: seq<string>, flags: map<string, Flag>, f: Flag, i: nat, j: nat): seq<string>
    requires Tokens(args) && j <= |args|
    decreases j - i
  {
    if i >= j then []
    else (if Target(args[i], flags) == Some(f) then [ValueAt(args, i)] else []) + ValuesBetween(args, flags, f, i + 1, j)
  }

  /** The values that the tokens from `i` on give to flag `f`, in order. */
  function ValuesFor(args: seq<string>, flags: map<string, Flag>, f: Flag, i: nat): seq<string>
    requires Tokens(args)
  {
    ValuesBetween(args, flags, f, i, |args|)
  }

  /** Wherever the pass stops, every flag is in the state its own values
      before the stop, applied one occurrence at a time, lead to: the tokens
      before the failing one keep their effect, and the failing one has none. */
  lemma {:induction false} ScanUntilStates(args: seq<string>, flags: map<string, Flag>, idx: nat, acc: Scanned, f: Flag)
    requires Tokens(args) && idx <= |args| && flags.Values <= acc.states.Keys
    requires f in acc.states
    ensures var u := ScanUntil(args, flags, idx, acc);
            AddedAll(acc.states[f], f.Multiple, ValuesBetween(args, flags, f, idx, u.next)) == Some(u.acc.states[f])
    decreases |args| - idx
  {
    var u := ScanUntil(args, flags, idx, acc);
    if idx < |args| && Step(args, flags, idx, acc).Ok? {
      var m := Step(args, flags, idx, acc).value;
      ScanUntilStates(args, flags, m.next, m.acc, f);
      assert u == ScanUntil(args, flags, m.next, m.acc);
      StepAddedAll(args, flags, idx, acc, f, u.next);
    } else {
      assert u == Move(idx, acc);
      assert ValuesBetween(args, flags, f, idx, u.next) == [];
    }
  }

  /** One turn, as flag `f` sees it, on the way to position `j`: the values
      from `idx` on lead to the same state as those after the turn, from the
      state the turn leaves. */
  lemma StepAddedAll(args: seq<string>, flags: map<string, Flag>, idx: nat, acc: Scanned, f: Flag, j: nat)
    requires Tokens(args) && idx < |args| && flags.Values <= acc.states.Keys
    requires f in acc.states
    requires Step(args, flags, idx, acc).Ok? && Step(args, flags, idx, acc).value.next <= j <= |args|
    ensures var m := Step(args, flags, idx, acc).value;
            AddedAll(acc.states[f], f.Multiple, ValuesBetween(args, flags, f, idx, j))
              == AddedAll(m.acc.states[f], f.Multiple, ValuesBetween(args, flags, f, m.next, j))
  {
    var m := Step(args, flags, idx, acc).value;
    StepTarget(args, flags, idx, acc, f);
    ValuesBetweenStep(args, flags, f, idx, j);
    var vs := ValuesBetween(args, flags, f, m.next, j);
    if Target(args[idx], flags) == Some(f) {
      var v := ValueAt(args, idx);
      assert ValuesBetween(args, flags, f, idx, j) == [v] + vs;
      assert AddedAll(acc.states[f], f.Multiple, [v] + vs) == AddedAll(m.acc.states[f], f.Multiple, vs) by {
        assert ([v] + vs)[0] == v && ([v] + vs)[1..] == vs;
      }
    } else {
      assert ValuesBetween(args, flags, f, idx, j) == [] + vs;
      assert [] + vs == vs;
    }
  }

  /** A pass that succeeds leaves every flag in the state its own values,
      applied one occurrence at a time, lead to. */
  lemma ScanStates(args: seq<string>, flags: map<string, Flag>, idx: nat, acc: Scanned, f: Flag)
    requires Tokens(args) && idx <= |args| && flags.Values <= acc.states.Keys
    requires f in acc.states
    ensures var r := Scan(args, flags, idx, acc);
            r.Ok? ==> AddedAll(acc.states[f], f.Multiple, ValuesFor(args, flags, f, idx)) == Some(r.value.states[f])
  {
    ScanUntilStates(args, flags, idx, acc, f);
  }

  /** One turn gives a value to the flag its token targets, and to no other. */
  lemma StepStates(args: seq<string>, flags: map<string, Flag>, idx: nat, acc: Scanned, f: Flag)
    requires Tokens(args) && idx < |args| && flags.Values <= acc.states.Keys
    requires f in acc.states
    requires Step(args, flags, idx, acc).Ok?
    ensures var m := Step(args, flags, idx, acc).value;
            var hit := Target(args[idx], flags) == Some(f);
            && ValuesFor(args, flags, f, idx) == (if hit then [ValueAt(args, idx)] else []) + ValuesFor(args, flags, f, m.next)
            && (hit ==> Added(acc.states[f], f.Multiple, ValueAt(args, idx)) == Some(m.acc.states[f]))
            && (!hit ==> m.acc.states[f] == acc.states[f])
  {
    StepTarget(args, flags, idx, acc, f);
    ValuesBetweenStep(args, flags, f, idx, |args|);
  }

  /** What one turn does to the state of `f`, and where it goes on. */
  lemma StepTarget(args: seq<string>, flags: map<string, Flag>, idx: nat, acc: Scanned, f: Flag)
    requires Tokens(args) && idx < |args| && flags.Values <= acc.states.Keys
    requires f in acc.states
    requires Step(args, flags, idx, acc).Ok?
    ensures var m := Step(args, flags, idx, acc).value;
            var hit := Target(args[idx], flags) == Some(f);
            && m.next == (if IsValue(args, idx + 1) then idx + 2 else idx + 1)
            && (hit ==> Added(acc.states[f], f.Multiple, ValueAt(args, idx)) == Some(m.acc.states[f]))
            && (!hit ==> m.acc.states[f] == acc.states[f])
  {
    var t := args[idx];
    if Acts(t) {
      var flag := Lookup(ParseOption(t), flags, acc.options).value.0;
      assert Target(t, flags) == Some(flag);
    }
  }

  /** The values for `f` from `idx` up to `j`: the one the token at `idx`
      gives, if it targets `f`, then those from past its lookahead value. */
  lemma ValuesBetweenStep(args: seq<string>, flags: map<string, Flag>, f: Flag, idx: nat, j: nat)
    requires Tokens(args) && idx < j <= |args|
    requires IsValue(args, idx + 1) ==> idx + 2 <= j
    ensures var next := if IsValue(args, idx + 1) then idx + 2 else idx + 1;
            ValuesBetween(args, flags, f, idx, j)
              == (if Target(args[idx], flags) == Some(f) then [ValueAt(args, idx)] else []) + ValuesBetween(args, flags, f, next, j)
  {
    var head := if Target(args[idx], flags) == Some(f) then [ValueAt(args, idx)] else [];
    assert ValuesBetween(args, flags, f, idx, j) == head + ValuesBetween(args, flags, f, idx + 1, j);
    if IsValue(args, idx + 1) {
      assert ValuesBetween(args, flags, f, idx + 1, j) == ValuesBetween(args, flags, f, idx + 2, j) by {
        assert Target(args[idx + 1], flags) == None;
        assert ValuesBetween(args, flags, f, idx + 1, j) == [] + ValuesBetween(args, flags, f, idx + 2, j);
      }
    }
  }

  /** The pass on a token that is not an option: a parameter. */
  lemma StepBare(args: seq<string>, flags: map<string, Flag>, idx: nat, acc: Scanned)
    requires Tokens(args) && idx < |args| && flags.Values <= acc.states.Keys
    requires !IsOptionStyle(args[idx])
    ensures Step(args, flags, idx, acc) == Ok(Move(idx + 1, acc.(params := acc.params + [args[idx]])))
  {
  }

  /** The pass on an option with an empty key, or a help key. */
  lemma StepIdle(args: seq<string>, flags: map<string, Flag>, idx: nat, acc: Scanned)
    requires Tokens(args) && idx < |args| && flags.Values <= acc.states.Keys
    requires IsOptionStyle(args[idx]) && !Acts(args[idx])
    ensures var key := ParseOption(args[idx]).key;
            Step(args, flags, idx, acc) == Ok(Move(idx + 1, if key == "" then acc else acc.(isHelp := true)))
  {
  }

  /** The pass on an option whose key is not known: the lookup's error. */
  lemma StepUnknown(args: seq<string>, flags: map<string, Flag>, idx: nat, acc: Scanned)
    requires Tokens(args) && idx < |args| && flags.Values <= acc.states.Keys
    requires Acts(args[idx])
    requires Lookup(ParseOption(args[idx]), flags, acc.options).Err?
    ensures Step(args, flags, idx, acc) == Err(Lookup(ParseOption(args[idx]), flags, acc.options).error)
  {
  }

  /** The pass on an option whose key is known: one occurrence of the flag,
      with the inline value or, when that is empty and the next token is bare,
      the next token, which is then skipped. */
  lemma StepActing(args: seq<string>, flags: map<string, Flag>, idx: nat, acc: Scanned,
                   flag: Flag, options: map<string, Flag>, value: string, next: nat)
    requires Tokens(args) && idx < |args| && flags.Values <= acc.states.Keys
    requires Acts(args[idx])
    requires Lookup(ParseOption(args[idx]), flags, acc.options) == Ok((flag, options))
    requires var p := ParseOption(args[idx]);
             var takes := p.value == "" && idx + 1 < |args| && !IsOptionStyle(args[idx + 1]);
             && value == (if takes then args[idx + 1] else p.value)
             && next == (if takes then idx + 2 else idx + 1)
    ensures Added(acc.states[flag], flag.Multiple, value).None? ==>
              Step(args, flags, idx, acc) == Err(NotMultiple(flag.Name))
    ensures Added(acc.states[flag], flag.Multiple, value).Some? ==>
              next <= |args| &&
              Step(args, flags, idx, acc) ==
                Ok(Move(next, Scanned(options, acc.params, acc.isHelp,
                                      acc.states[flag := Added(acc.states[flag], flag.Multiple, value).value])))
  {
    assert ValueAt(args, idx) == value && next == (if IsValue(args, idx + 1) then idx + 2 else idx + 1);
  }

  /** The rest of the pass after an option whose key is known: it fails
      with NotMultiple on a refused occurrence, and otherwise goes on past the
      value with the flag given one more occurrence. */
  lemma ScanActing(args: seq<string>, flags: map<string, Flag>, idx: nat, acc: Scanned,
                   flag: Flag, options: map<string, Flag>, value: string, next: nat)
    requires Tokens(args) && idx < |args| && flags.Values <= acc.states.Keys
    requires Acts(args[idx])
    requires Lookup(ParseOption(args[idx]), flags, acc.options) == Ok((flag, options))
    requires var p := ParseOption(args[idx]);
             var takes := p.value == "" && idx + 1 < |args| && !IsOptionStyle(args[idx + 1]);
             && value == (if takes then args[idx + 1] else p.value)
             && next == (if takes then idx + 2 else idx + 1)
    ensures Added(acc.states[flag], flag.Multiple, value).None? ==>
              Scan(args, flags, idx, acc) == Err(NotMultiple(flag.Name))
    ensures Added(acc.states[flag], flag.Multiple, value).Some? ==>
              next <= |args| &&
              Scan(args, flags, idx, acc) ==
                Scan(args, flags, next, Scanned(options, acc.params, acc.isHelp,
                                                acc.states[flag := Added(acc.states[flag], flag.Multiple, value).value]))
  {
    StepActing(args, flags, idx, acc, flag, options, value, next);
    if Step(args, flags, idx, acc).Ok? {
      ScanStep(args, flags, idx, acc);
    }
  }

  /** "-ab x": both a and b must be known and both are marked as seen, but
      only b, the last character's flag, takes the value "x"; a is untouched. */
  lemma CombinedValueGoesToLast(a: Flag, b: Flag)
    requires a != b && a.Name == "a" && b.Name == "b"
    ensures var flags := map["a" := a, "b" := b];
            var unset := FlagState(false, []);
            Scan(["-ab", "x"], flags, 0, Scanned(map[], [], false, map[a := unset, b := unset]))
              == Ok(Scanned(flags, [], false, map[a := unset, b := FlagState(true, ["x"])]))
  {
    var args := ["-ab", "x"];
    var flags := map["a" := a, "b" := b];
    var unset := FlagState(false, []);
    var acc := Scanned(map[], [], false, map[a := unset, b := unset]);
    var done := Scanned(flags, [], false, map[a := unset, b := FlagState(true, ["x"])]);
    CombinedFirstTurn(args, flags, a, b);
    assert Scan(args, flags, 2, done) == Ok(done);
  }

  /** The turn on "-ab" of "-ab x": b takes "x" and the pass goes on after it. */
  lemma CombinedFirstTurn(args: seq<string>, flags: map<string, Flag>, a: Flag, b: Flag)
    requires a != b && a.Name == "a" && b.Name == "b"
    requires args == ["-ab", "x"] && flags == map["a" := a, "b" := b]
    ensures var unset := FlagState(false, []);
            Scan(args, flags, 0, Scanned(map[], [], false, map[a := unset, b := unset]))
              == Scan(args, flags, 2, Scanned(flags, [], false, map[a := unset, b := FlagState(true, ["x"])]))
  {
    var unset := FlagState(false, []);
    var acc := Scanned(map[], [], false, map[a := unset, b := unset]);
    CombinedReady(args, flags, a, b, unset, unset);
    FirstValue(b.Multiple, "x");
    ScanActing(args, flags, 0, acc, b, flags, "x", 2);
    Overwrite(a, b, unset, unset, FlagState(true, ["x"]));
  }

  /** What the turn on "-ab" of "-ab x" needs: both tokens are well formed,
      "-ab" acts and selects b, and "x" is a value for it. */
  lemma CombinedReady(args: seq<string>, flags: map<string, Flag>, a: Flag, b: Flag, x: FlagState, y: FlagState)
    requires a != b && a.Name == "a" && b.Name == "b"
    requires args == ["-ab", "x"] && flags == map["a" := a, "b" := b]
    ensures Tokens(args) && |args| == 2 && args[1] == "x"
    ensures flags.Values <= map[a := x, b := y].Keys
    ensures Acts(args[0]) && Lookup(ParseOption(args[0]), flags, map[]) == Ok((b, flags))
    ensures ParseOption(args[0]).value == "" && !IsOptionStyle(args[1])
  {
    CombinedLookup(a, b);
    assert args[0] == "-ab" && args[1] == "x" && |args| == 2;
    assert flags.Values == {a, b} by {
      assert flags["a"] == a && flags["b"] == b;
    }
  }

  /** Giving `b` a new state in a map of two flags. */
  lemma Overwrite(a: Flag, b: Flag, x: FlagState, y: FlagState, z: FlagState)
    requires a != b
    ensures map[a := x, b := y][b := z] == map[a := x, b := z]
  {
  }

  /** The first value an unused flag is given becomes its only value. */
  lemma FirstValue(multiple: bool, v: string)
    requires v != ""
    ensures Added(FlagState(false, []), multiple, v) == Some(FlagState(true, [v]))
  {
    assert [] + [v] == [v];
  }

  /** The lookup of "-ab": both characters are known, both are marked, b is selected. */
  lemma CombinedLookup(a: Flag, b: Flag)
    requires a.Name == "a" && b.Name == "b"
    ensures var flags := map["a" := a, "b" := b];
            && ParseOption("-ab") == Parsed(Single, "ab", "")
            && Acts("-ab")
            && Lookup(ParseOption("-ab"), flags, map[]) == Ok((b, flags))
  {
    CombinedParse();
    MarkBoth(a, b);
  }

  /** "-ab" is a single-dash option with key "ab" and no value. */
  lemma CombinedParse()
    ensures ParseOption("-ab") == Parsed(Single, "ab", "")
  {
    assert "-ab"[1..] == "ab" && "ab"[0] == 'a' && "ab"[1] == 'b';
    assert "-ab"[1] != '-';
  }

  /** Marking "ab" marks both flags. */
  lemma MarkBoth(a: Flag, b: Flag)
    requires a.Name == "a" && b.Name == "b"
    ensures MarkAll("ab", map["a" := a, "b" := b], map[]) == Ok(map["a" := a, "b" := b])
  {
    var flags := map["a" := a, "b" := b];
    assert "ab"[0] == 'a' && "ab"[1..] == "b" && "b"[0] == 'b' && "b"[1..] == "";
    assert map[]["a" := a]["b" := b] == flags;
  }
}
