/** context.go: the result of parsing, and the cursor that runs the handlers of
    the resolved command chain. */
module CliContext {
  import opened Errors
  import opened CliFlag
  import opened CliCommand

  /** The cursor value that marks an aborted chain (math.MaxInt32). */
  const AbortIndex: int := 2147483647

  /** A value stored in the side channel (Go's interface{}); Nil is Go's nil. */
  datatype Datum = Nil | Str(s: string) | Number(n: int) | Truth(b: bool)

  ghost predicate Increasing(s: seq<nat>) {
    forall i, j :: 0 <= i < j < |s| ==> s[i] < s[j]
  }

  /** The chain positions whose handlers a dispatch loop standing at cursor `k`
      runs, in the order it runs them: every non-nil handler from `k` on, up to
      and including the first one that aborts. */
  function Runs(cmds: seq<Command>, k: nat): (r: seq<nat>)
    ensures forall i :: 0 <= i < |r| ==> k <= r[i] < |cmds| && cmds[r[i]].Run != NoHandler
    ensures Increasing(r)
    decreases |cmds| - k
  {
    if k >= |cmds| then []
    else match cmds[k].Run
      case NoHandler => Runs(cmds, k + 1)
      case Aborts => [k]
      case _ => [k] + Runs(cmds, k + 1)
  }

  /** The cursor such a loop leaves behind.  Each handler that calls Next itself
      makes the enclosing loop step once more past the end. */
  function Final(cmds: seq<Command>, k: nat): (f: int)
    requires |cmds| < AbortIndex
    ensures f >= k && f >= |cmds|
    decreases |cmds| - k
  {
    if k >= |cmds| then k
    else match cmds[k].Run
      case NoHandler => Final(cmds, k + 1)
      case Plain => Final(cmds, k + 1)
      case Aborts => AbortIndex + 1
      case CallsNext => Final(cmds, k + 1) + 1
  }

  /** The positions in [k, end) that have a handler, in increasing order. */
  function Handled(cmds: seq<Command>, k: nat, end: nat): seq<nat>
    requires end <= |cmds|
    decreases end - k
  {
    if k >= end then []
    else if cmds[k].Run == NoHandler then Handled(cmds, k + 1, end)
    else [k] + Handled(cmds, k + 1, end)
  }

  /** The first position at or after `k` whose handler aborts, or |cmds|. */
  function FirstAbort(cmds: seq<Command>, k: nat): (a: nat)
    ensures k <= a || a == |cmds|
    ensures a <= |cmds|
    ensures a < |cmds| ==> cmds[a].Run == Aborts
    ensures forall j :: k <= j < a ==> cmds[j].Run != Aborts
    decreases |cmds| - k
  {
    if k >= |cmds| then |cmds|
    else if cmds[k].Run == Aborts then k
    else FirstAbort(cmds, k + 1)
  }

  /** The number of handlers in [k, |cmds|) that call Next themselves. */
  function Nested(cmds: seq<Command>, k: nat): nat
    decreases |cmds| - k
  {
    if k >= |cmds| then 0
    else (if cmds[k].Run == CallsNext then 1 else 0) + Nested(cmds, k + 1)
  }

  /** Dispatch runs every handler up to and including the first that aborts,
      and none after it. */
  lemma {:induction false} DispatchRunsUntilAbort(cmds: seq<Command>, k: nat)
    requires k <= |cmds|
    ensures var a := FirstAbort(cmds, k);
            Runs(cmds, k) == Handled(cmds, k, if a < |cmds| then a + 1 else |cmds|)
    decreases |cmds| - k
  {
    if k < |cmds| {
      if cmds[k].Run == Aborts {
        assert Handled(cmds, k + 1, k + 1) == [];
      } else {
        DispatchRunsUntilAbort(cmds, k + 1);
        PassOver(cmds, k);
      }
    }
  }

  /** A handler that does not abort: dispatch and the first abort are those
      from the next position on, with this position in front if it has a
      handler. */
  lemma PassOver(cmds: seq<Command>, k: nat)
    requires k < |cmds| && cmds[k].Run != Aborts
    ensures var a := FirstAbort(cmds, k + 1);
            var end := if a < |cmds| then a + 1 else |cmds|;
            var here := if cmds[k].Run == NoHandler then [] else [k];
            && FirstAbort(cmds, k) == a
            && Runs(cmds, k) == here + Runs(cmds, k + 1)
            && Handled(cmds, k, end) == here + Handled(cmds, k + 1, end)
  {
    var a := FirstAbort(cmds, k + 1);
    assert FirstAbort(cmds, k) == a;
    RunsStep(cmds, k);
    HandledStep(cmds, k, if a < |cmds| then a + 1 else |cmds|);
  }

  /** Dispatch from `k` past a handler that does not abort. */
  lemma RunsStep(cmds: seq<Command>, k: nat)
    requires k < |cmds| && cmds[k].Run != Aborts
    ensures Runs(cmds, k) == (if cmds[k].Run == NoHandler then [] else [k]) + Runs(cmds, k + 1)
  {
  }

  /** The handled positions from `k` on: `k` itself if it has a handler, then
      those after it. */
  lemma HandledStep(cmds: seq<Command>, k: nat, end: nat)
    requires k < end <= |cmds|
    ensures Handled(cmds, k, end) == (if cmds[k].Run == NoHandler then [] else [k]) + Handled(cmds, k + 1, end)
  {
  }

  /** The chain ends aborted exactly when some handler from `k` on aborts;
      otherwise the cursor ends at |cmds| plus one for every handler that
      called Next itself. */
  lemma {:induction false} DispatchEndsAbortedIff(cmds: seq<Command>, k: nat)
    requires |cmds| + Nested(cmds, k) < AbortIndex && k <= |cmds|
    ensures Final(cmds, k) >= AbortIndex <==> FirstAbort(cmds, k) < |cmds|
    ensures FirstAbort(cmds, k) == |cmds| ==> Final(cmds, k) == |cmds| + Nested(cmds, k)
    decreases |cmds| - k
  {
    if k < |cmds| && cmds[k].Run != Aborts {
      DispatchEndsAbortedIff(cmds, k + 1);
    }
  }

  /** One step of the dispatch loop at cursor `k`: the handler there (if any)
      turned the trace `t` into `t'` and left the cursor at `i`; what the loop
      still runs after stepping past `i` completes what it ran from `k`. */
  lemma StepRuns(cmds: seq<Command>, k: nat, t: seq<nat>, t': seq<nat>, i: int)
    requires |cmds| < AbortIndex && k < |cmds|
    requires cmds[k].Run == NoHandler ==> t' == t && i == k
    requires cmds[k].Run == Plain ==> t' == t + [k] && i == k
    requires cmds[k].Run == Aborts ==> t' == t + [k] && i == AbortIndex
    requires cmds[k].Run == CallsNext ==> t' == t + [k] + Runs(cmds, k + 1) && i == Final(cmds, k + 1)
    ensures k < i + 1
    ensures t' + Runs(cmds, i + 1) == t + Runs(cmds, k)
    ensures Final(cmds, i + 1) == Final(cmds, k)
  {
    match cmds[k].Run {
      case NoHandler =>
        RunsStep(cmds, k);
      case Plain =>
        RunsStep(cmds, k);
        assert t' + Runs(cmds, k + 1) == t + ([k] + Runs(cmds, k + 1));
      case Aborts =>
        assert Runs(cmds, i + 1) == [];
      case CallsNext =>
        RunsStep(cmds, k);
        assert Runs(cmds, i + 1) == [];
        assert t' == t + ([k] + Runs(cmds, k + 1));
    }
  }

  /** Of three handlers, the second of which aborts, the
      third never runs. */
  lemma AbortStopsLaterHandlers(a: Command, b: Command, c: Command)
    requires a.Run == Plain && b.Run == Aborts && c.Run != NoHandler
    ensures Runs([a, b, c], 0) == [0, 1]
    ensures Final([a, b, c], 0) >= AbortIndex
  {
  }

  class Context {
    const args: seq<string>            // positional parameters
    const cmds: seq<Command>           // the command chain, without the root
    const flags: map<string, Flag>     // the flags that occurred, by name
    var datas: Option<map<string, Datum>>
    var index: int
    var trace: seq<nat>                // chain positions whose handlers ran, in order

    /** The abort sentinel lies past every chain position, and the cursor
        never goes back before the start. */
    ghost predicate Valid()
      reads this
    {
      |cmds| < AbortIndex && index >= -1
    }

    /** newContext */
    constructor (args: seq<string>, cmds: seq<Command>, flags: map<string, Flag>)
      requires |cmds| < AbortIndex
      ensures Valid()
      ensures this.args == args && this.cmds == cmds && this.flags == flags
      ensures datas == None && index == -1 && trace == []
      ensures !IsAborted()
    {
      this.args, this.cmds, this.flags := args, cmds, flags;
      datas, index, trace := None, -1, [];
    }

    /** The side-channel value under `key`; Nil when absent. */
    function Get(key: string): (r: Datum)
      reads this
      ensures datas.None? ==> r == Nil
      ensures datas.Some? ==> r == if key in datas.value then datas.value[key] else Nil
    {
      match datas
      case None => Nil
      case Some(m) => if key in m then m[key] else Nil
    }

    /** Stores `val` under `key`, creating the side channel on first use. */
    method Set(key: string, val: Datum)
      modifies this`datas
      ensures datas.Some?
      ensures Get(key) == val
      ensures forall k :: k != key ==> Get(k) == old(Get(k))
    {
      if datas.None? {
        datas := Some(map[]);
      }
      datas := Some(datas.value[key := val]);
    }

    function NArg(): (n: nat)
      reads this
      ensures n == |args|
    {
      |args|
    }

    /** The i-th positional parameter; None where Go's index expression
        panics, that is for a negative index or one past the last parameter. */
    function Arg(i: int): (s: Option<string>)
      reads this
      ensures s.Some? <==> 0 <= i < NArg()
      ensures s.Some? ==> s.value == args[i]
    {
      if 0 <= i < |args| then Some(args[i]) else None
    }

    function NFlag(): (n: nat)
      reads this
      ensures n == |flags|
    {
      |flags|
    }

    /** The flag that occurred under `key`, or null. */
    function Flag(key: string): (f: Flag?)
      reads this
      ensures f == null <==> key !in flags
      ensures f != null ==> f == flags[key]
    {
      if key in flags then flags[key] else null
    }

    /** The first value of the flag under `key`, or "" when it did not occur. */
    function FlagStr(key: string): (r: string)
      reads this, flags.Values
      ensures key !in flags ==> r == ""
      ensures key in flags ==> r == flags[key].Get()
    {
      var f := Flag(key);
      if f != null then f.Get() else ""
    }

    /** All values of the flag under `key`, or none when it did not occur. */
    function FlagList(key: string): (r: seq<string>)
      reads this, flags.Values
      ensures key !in flags ==> r == []
      ensures key in flags ==> r == flags[key].options
    {
      var f := Flag(key);
      if f != null then f.options else []
    }

    /** An aborted cursor lies past every chain position, so no loop runs
        another handler. */
    function IsAborted(): (aborted: bool)
      reads this
      ensures Valid() && aborted ==> index > |cmds|
    {
      index >= AbortIndex
    }

    /** Runs the handlers of the chain after the cursor, in order.  A handler may
        call Next itself; what it runs is then not run again by this loop. */
    method Next()
      requires Valid()
      modifies this`index, this`trace
      ensures Valid()
      ensures trace == old(trace) + Runs(cmds, old(index) + 1)
      ensures index == Final(cmds, old(index) + 1)
      decreases |cmds| - index, 0
    {
      index := index + 1;
      while index < |cmds|
        invariant Valid()
        invariant old(index) + 1 <= index
        invariant old(trace) + Runs(cmds, old(index) + 1) == trace + Runs(cmds, index)
        invariant Final(cmds, old(index) + 1) == Final(cmds, index)
        decreases |cmds| - index
      {
        RunCurrent();
        index := index + 1;
      }
    }

    /** One turn of Next's loop: the handler at the cursor, if there is one. */
    method RunCurrent()
      requires Valid() && 0 <= index < |cmds|
      modifies this`index, this`trace
      ensures Valid() && old(index) <= index
      ensures trace + Runs(cmds, index + 1) == old(trace) + Runs(cmds, old(index))
      ensures Final(cmds, index + 1) == Final(cmds, old(index))
      decreases |cmds| - index, 2
    {
      var cmd := cmds[index];
      if cmd.Run != NoHandler {
        Call(cmd.Run);
      }
      StepRuns(cmds, old(index), old(trace), trace, index);
    }

    /** The callback of the command at the cursor: what each kind of handler
        does to the cursor.  The invocation is recorded in `trace`. */
    method Call(h: Handler)
      requires Valid() && 0 <= index < |cmds| && cmds[index].Run == h && h != NoHandler
      modifies this`index, this`trace
      ensures Valid()
      ensures h != CallsNext ==> trace == old(trace) + [old(index)]
      ensures h == Plain ==> index == old(index)
      ensures h == Aborts ==> index == AbortIndex
      ensures h == CallsNext ==> trace == old(trace) + [old(index)] + Runs(cmds, old(index) + 1)
      ensures h == CallsNext ==> index == Final(cmds, old(index) + 1)
      decreases |cmds| - index, 1
    {
      trace := trace + [index];
      match h
      case Plain =>
      case Aborts => Abort();
      case CallsNext => Next();
    }

    /** Stops the chain: no handler after the current one runs. */
    method Abort()
      requires Valid()
      modifies this`index
      ensures Valid()
      ensures index == AbortIndex && IsAborted()
    {
      index := AbortIndex;
    }
  }
}
