/** flag.go: an option descriptor that accumulates the values given for it. */
module CliFlag {
  import opened Errors
  import Text

  /** The part of a flag that parsing changes: whether it was seen, and its values. */
  datatype FlagState = FlagState(used: bool, options: seq<string>)

  /** The canonical key of a flag name such as "help,h": the trimmed text before
      the first comma, or the whole name when it has no comma. */
  function KeyOf(name: string): (r: string)
    ensures ',' !in r
    ensures ',' !in name ==> r == name
    ensures ',' in name ==> r == Text.TrimSpace(name[..Text.IndexAny(name, {','})])
  {
    var i := Text.IndexAny(name, {','});
    if i != -1 then
      var head := name[..i];
      assert ',' !in head;
      NoCommaTrimmed(head);
      Text.TrimSpace(head)
    else name
  }

  lemma NoCommaTrimmed(head: string)
    requires ',' !in head
    ensures ',' !in Text.TrimSpace(head)
  {
    var r := Text.TrimSpace(head);
    assert forall k :: 0 <= k < |r| ==> r[k] == head[Text.TrimOffset(head) + k];
  }

  /** The state after one occurrence with value `opt` (addOption), or None when
      the flag was already used and does not take several values. */
  function Added(s: FlagState, multiple: bool, opt: string): (r: Option<FlagState>)
    ensures r.None? <==> s.used && !multiple
    ensures r.Some? ==> r.value.used && s.options <= r.value.options
    ensures r.Some? ==> r.value.options[|s.options|..] == (if opt != "" then [opt] else [])
  {
    if s.used && !multiple then None
    else Some(FlagState(true, if opt != "" then s.options + [opt] else s.options))
  }

  /** The state after the end-of-parse check (validate), or None when a required
      flag was never used.  A flag with no values and a default gets the default as
      its only value, whether or not it was used. */
  function Validated(s: FlagState, required: bool, default: string): (r: Option<FlagState>)
    ensures r.None? <==> required && !s.used
    ensures r.Some? ==> r.value.used == s.used
    ensures r.Some? ==> r.value.options == s.options || (s.options == [] && default != "" && r.value.options == [default])
    ensures r.Some? && s.options == [] && default != "" ==> r.value.options == [default]
  {
    if required && !s.used then None
    else Some(FlagState(s.used, if |s.options| == 0 && default != "" then s.options + [default] else s.options))
  }

  /** The state after occurrences with the values `opts`, in order, or None if one fails. */
  function AddedAll(s: FlagState, multiple: bool, opts: seq<string>): (r: Option<FlagState>)
    ensures r.Some? ==> s.options <= r.value.options && |r.value.options| <= |s.options| + |opts|
    ensures r.Some? ==> (r.value.used <==> s.used || opts != [])
    decreases |opts|
  {
    if opts == [] then Some(s)
    else match Added(s, multiple, opts[0])
      case None => None
      case Some(s') => AddedAll(s', multiple, opts[1..])
  }

  /** The values of `opts` that are not empty, in order. */
  function NonEmpty(opts: seq<string>): (r: seq<string>)
    ensures |r| <= |opts| && "" !in r
  {
    if opts == [] then []
    else (if opts[0] != "" then [opts[0]] else []) + NonEmpty(opts[1..])
  }

  /** A flag that takes several values collects exactly the non-empty values it
      is given, in the order given, and is used once it was given any. */
  lemma {:induction false} MultipleCollectsInOrder(s: FlagState, opts: seq<string>)
    ensures AddedAll(s, true, opts) == Some(FlagState(s.used || opts != [], s.options + NonEmpty(opts)))
    decreases |opts|
  {
    if opts == [] {
      assert s.options + NonEmpty(opts) == s.options;
    } else {
      var s' := FlagState(true, s.options + NonEmpty([opts[0]]));
      CollectStep(s, opts);
      MultipleCollectsInOrder(s', opts[1..]);
    }
  }

  /** One value into a flag that takes several: the rest go into the state
      that value leads to. */
  lemma CollectStep(s: FlagState, opts: seq<string>)
    requires opts != []
    ensures var s' := FlagState(true, s.options + NonEmpty([opts[0]]));
            && AddedAll(s, true, opts) == AddedAll(s', true, opts[1..])
            && s.options + NonEmpty(opts) == s'.options + NonEmpty(opts[1..])
  {
    AddedAllFirst(s, opts);
    NonEmptyAppend(s.options, opts);
  }

  lemma NonEmptyAppend(prefix: seq<string>, opts: seq<string>)
    requires opts != []
    ensures prefix + NonEmpty(opts) == (prefix + NonEmpty([opts[0]])) + NonEmpty(opts[1..])
  {
    NonEmptyCons(opts);
    var head := NonEmpty([opts[0]]);
    assert prefix + (head + NonEmpty(opts[1..])) == (prefix + head) + NonEmpty(opts[1..]);
  }

  lemma AddedAllFirst(s: FlagState, opts: seq<string>)
    requires opts != []
    ensures AddedAll(s, true, opts) == AddedAll(FlagState(true, s.options + NonEmpty([opts[0]])), true, opts[1..])
  {
    AddedOne(s, opts[0]);
  }

  lemma AddedOne(s: FlagState, opt: string)
    ensures Added(s, true, opt) == Some(FlagState(true, s.options + NonEmpty([opt])))
  {
    assert [opt][1..] == [];
    if opt == "" {
      assert NonEmpty([opt]) == [];
      assert s.options + NonEmpty([opt]) == s.options;
    } else {
      assert NonEmpty([opt]) == [opt];
    }
  }

  lemma NonEmptyCons(opts: seq<string>)
    requires opts != []
    ensures NonEmpty(opts) == NonEmpty([opts[0]]) + NonEmpty(opts[1..])
  {
    assert [opts[0]][1..] == [];
    assert NonEmpty([opts[0]]) == if opts[0] != "" then [opts[0]] else [];
  }

  /** A flag that takes one value accepts no occurrence after its first one:
      a run of occurrences succeeds iff there is none, or one on an unused flag. */
  lemma {:induction false} SingleAcceptsOneOccurrence(s: FlagState, opts: seq<string>)
    ensures AddedAll(s, false, opts).Some? <==> opts == [] || (!s.used && |opts| == 1)
  {
    if opts != [] && !s.used {
      var s' := Added(s, false, opts[0]).value;
      if |opts| > 1 {
        assert opts[1..] != [];
        assert Added(s', false, opts[1..][0]).None?;
      }
    }
  }

  /** Validating twice changes nothing more than validating once. */
  lemma ValidatedIdempotent(s: FlagState, required: bool, default: string)
    requires Validated(s, required, default).Some?
    ensures Validated(Validated(s, required, default).value, required, default)
         == Validated(s, required, default)
  {
  }

  class Flag {
    var key: string        // cached result of Key()
    const Name: string     // "help,h": names separated by commas
    const Short: string    // short alias (used only by the flag map builder)
    const Value: string    // default value
    const Required: bool
    const Multiple: bool   // accepts several occurrences
    var used: bool         // seen on the command line
    var options: seq<string>

    /** The key cache is empty or right, and no empty string is ever collected. */
    ghost predicate Valid()
      reads this
    {
      (key == "" || key == KeyOf(Name)) && "" !in options
    }

    constructor (name: string, short: string, value: string, required: bool, multiple: bool)
      ensures Valid()
      ensures Name == name && Short == short && Value == value
      ensures Required == required && Multiple == multiple
      ensures !used && options == [] && key == ""
    {
      key := "";
      Name, Short, Value := name, short, value;
      Required, Multiple := required, multiple;
      used, options := false, [];
    }

    function State(): FlagState
      reads this
    {
      FlagState(used, options)
    }

    /** The first name of the flag, computed once and then cached. */
    method Key() returns (k: string)
      requires Valid()
      modifies this`key
      ensures Valid() && k == KeyOf(Name) && key == k
    {
      if key == "" {
        var index := Text.IndexAny(Name, {','});
        if index != -1 {
          key := Text.TrimSpace(Name[..index]);
        } else {
          key := Name;
        }
      }
      k := key;
    }

    /** Records one occurrence with value `opt`. */
    method AddOption(opt: string) returns (s: Status)
      modifies this`used, this`options
      ensures old(Valid()) ==> Valid()
      ensures s.Fail? <==> old(used) && !Multiple
      ensures s.Fail? ==> s.error == NotMultiple(Name) && used == old(used) && options == old(options)
      ensures s.Pass? ==> used && options == old(options) + (if opt != "" then [opt] else [])
      ensures s.Pass? ==> Len() == old(Len()) + (if opt != "" then 1 else 0)
      ensures Added(old(State()), Multiple, opt) == (if s.Pass? then Some(State()) else None)
    {
      if used && !Multiple {
        return Fail(NotMultiple(Name));
      }
      used := true;
      if opt != "" {
        options := options + [opt];
      }
      s := Pass;
    }

    /** The end-of-parse check of a required flag, and the default value. */
    method Validate() returns (s: Status)
      modifies this`options
      ensures old(Valid()) ==> Valid()
      ensures s.Fail? <==> Required && !used
      ensures s.Fail? ==> s.error == MissingRequired(Name) && options == old(options)
      ensures s.Pass? && old(options) == [] && Value != "" ==> options == [Value]
      ensures s.Pass? && (old(options) != [] || Value == "") ==> options == old(options)
      ensures Validated(old(State()), Required, Value) == (if s.Pass? then Some(State()) else None)
    {
      if Required && !used {
        return Fail(MissingRequired(Name));
      }
      if |options| == 0 && Value != "" {
        options := options + [Value];
      }
      s := Pass;
    }

    /** The first value, or "" when there is none. */
    function Get(): (r: string)
      reads this
      ensures r == GetAt(0)
      ensures Valid() ==> (r == "" <==> |options| == 0)
    {
      if |options| > 0 then options[0] else ""
    }

    /** The i-th value, or "" past the end; "" never stands for a given value. */
    function GetAt(i: nat): (r: string)
      reads this
      ensures i < |options| ==> r == options[i]
      ensures Valid() ==> (r == "" <==> i >= |options|)
    {
      if i < |options| then options[i] else ""
    }

    /** All values, in the order given: the i-th is what GetAt(i) returns. */
    function GetList(): (r: seq<string>)
      reads this
      ensures |r| == |options|
      ensures forall i :: 0 <= i < |r| ==> r[i] == GetAt(i)
    {
      options
    }

    /** The number of values: the length of GetList, and the first position
        at which GetAt has nothing. */
    function Len(): (n: nat)
      reads this
      ensures n == |GetList()|
      ensures Valid() ==> forall i: nat :: GetAt(i) != "" <==> i < n
    {
      |options|
    }
  }
}
