/** The few string routines of Go's standard library the core relies on,
    over strings modelled as sequences of Unicode characters. */
module Text {

  /** Go's unicode.IsSpace: the Latin-1 spaces and the other White_Space characters. */
  predicate IsSpace(c: char) {
    || c == ' ' || c == '\t' || c == '\n' || c == '\U{B}' || c == '\U{C}' || c == '\r'
    || c == '\U{85}' || c == '\U{A0}' || c == '\U{1680}'
    || ('\U{2000}' <= c <= '\U{200A}')
    || c == '\U{2028}' || c == '\U{2029}' || c == '\U{202F}' || c == '\U{205F}' || c == '\U{3000}'
  }

  /** strings.IndexAny: the position of the first character of `s` that is in
      `chars`, or -1 when there is none. */
  function IndexAny(s: string, chars: set<char>): (i: int)
    ensures -1 <= i < |s|
    ensures i == -1 <==> forall k :: 0 <= k < |s| ==> s[k] !in chars
    ensures 0 <= i ==> s[i] in chars && forall k :: 0 <= k < i ==> s[k] !in chars
  {
    if s == [] then -1
    else if s[0] in chars then 0
    else
      var j := IndexAny(s[1..], chars);
      if j == -1 then -1 else j + 1
  }

  /** Drops the leading white space of `s`. */
  function TrimLeft(s: string): (r: string)
    ensures |r| <= |s| && r == s[|s| - |r|..]
    ensures r == [] || !IsSpace(r[0])
    ensures forall k :: 0 <= k < |s| - |r| ==> IsSpace(s[k])
  {
    if s != [] && IsSpace(s[0]) then TrimLeft(s[1..]) else s
  }

  /** Drops the trailing white space of `s`. */
  function TrimRight(s: string): (r: string)
    ensures |r| <= |s| && r == s[..|r|]
    ensures r == [] || !IsSpace(r[|r| - 1])
    ensures forall k :: |r| <= k < |s| ==> IsSpace(s[k])
  {
    if s != [] && IsSpace(s[|s| - 1]) then TrimRight(s[..|s| - 1]) else s
  }

  /** strings.TrimSpace: `s` without its leading and trailing white space.
      The result is the slice s[i..i + |r|] for the `i` that TrimOffset gives. */
  function TrimSpace(s: string): (r: string)
    ensures 0 <= TrimOffset(s) <= |s| - |r| && r == s[TrimOffset(s)..TrimOffset(s) + |r|]
    ensures r == [] || (!IsSpace(r[0]) && !IsSpace(r[|r| - 1]))
    ensures forall k :: 0 <= k < TrimOffset(s) ==> IsSpace(s[k])
    ensures forall k :: TrimOffset(s) + |r| <= k < |s| ==> IsSpace(s[k])
  {
    TrimRight(TrimLeft(s))
  }

  /** The number of leading white-space characters TrimSpace removes. */
  function TrimOffset(s: string): nat {
    |s| - |TrimLeft(s)|
  }
}
