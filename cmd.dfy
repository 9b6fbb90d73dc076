/** cmd.go: a node of the command tree. */
module CliCommand {
  import opened Errors
  import opened CliFlag

  /** What a command's Run callback does to the dispatch cursor: nothing at all
      (a nil callback), return, abort the chain, or continue the chain itself
      before returning (middleware style). */
  datatype Handler = NoHandler | Plain | Aborts | CallsNext

  datatype Command = Command(
    Name: string,
    Group: string,
    Short: string,
    Long: string,
    Header: string,
    Footer: string,
    Run: Handler,
    Flags: seq<Flag>,
    Subs: seq<Command>,
    Alias: seq<string>)
  {
    /** Whether `name` names this command, by its name or by one of its aliases. */
    predicate IsCommand(name: string)
      ensures IsCommand(name) <==> name == Name || name in Alias
    {
      Name == name || Listed(Alias, name)
    }

    /** The first child, in declaration order, that `name` names. */
    function FindSub(name: string): (r: Option<Command>)
      ensures r.None? <==> forall k :: 0 <= k < |Subs| ==> !Subs[k].IsCommand(name)
      ensures r.Some? ==> r.value in Subs && r.value.IsCommand(name)
      ensures r.Some? ==> var i := FirstMatch(Subs, name);
                          i < |Subs| && Subs[i] == r.value
                          && forall k :: 0 <= k < i ==> !Subs[k].IsCommand(name)
    {
      var i := FirstMatch(Subs, name);
      if i < |Subs| then Some(Subs[i]) else None
    }
  }

  /** The loop over the aliases: whether `name` occurs in `alias`. */
  function Listed(alias: seq<string>, name: string): (r: bool)
    ensures r <==> name in alias
  {
    if alias == [] then false
    else if alias[0] == name then true
    else Listed(alias[1..], name)
  }

  /** The loop over the children: the position of the first one that `name`
      names, or |subs| when none does. */
  function FirstMatch(subs: seq<Command>, name: string): (i: nat)
    ensures i <= |subs|
    ensures forall k :: 0 <= k < i ==> !subs[k].IsCommand(name)
    ensures i < |subs| ==> subs[i].IsCommand(name)
  {
    if subs == [] then 0
    else if subs[0].IsCommand(name) then 0
    else FirstMatch(subs[1..], name) + 1
  }

  /** NewCmd: a command with a name, a group and a callback, and nothing else. */
  function NewCmd(name: string, group: string, action: Handler): (c: Command)
    ensures c.Name == name && c.Group == group && c.Run == action
    ensures c.Flags == [] && c.Subs == [] && c.Alias == []
    ensures c.Short == "" && c.Long == "" && c.Header == "" && c.Footer == ""
  {
    Command(name, group, "", "", "", "", action, [], [], [])
  }

  /** Every flag declared anywhere in the tree below (and at) `c`. */
  ghost function AllFlags(c: Command): set<Flag>
    decreases c
  {
    (set f | f in c.Flags) + (set s, f | s in c.Subs && f in AllFlags(s) :: f)
  }

  /** A child's flags are among its parent's. */
  lemma ChildFlags(c: Command, name: string)
    requires c.FindSub(name).Some?
    ensures AllFlags(c.FindSub(name).value) <= AllFlags(c)
  {
  }
}
