/** app.go parseOption: how one command-line token is read as an option. */
module CliOption {
  import Text

  /** styleUnknown (not an option), styleWindow ('/'), styleSingle ('-'), styleDouble ('--'). */
  datatype Style = Unknown | Window | Single | Double

  datatype Parsed = Parsed(style: Style, key: string, value: string)

  /** The characters at which an option splits into key and inline value. */
  const Separators: set<char> := {'=', '/', ':'}

  /** A token that looks like an option: it starts with '-' or '/'. */
  predicate IsOptionStyle(t: string)
    requires t != ""
  {
    t[0] == '-' || t[0] == '/'
  }

  /** Tokens of an argument vector; the source indexes the first character of
      each, so none may be empty. */
  predicate Tokens(ts: seq<string>) {
    forall i :: 0 <= i < |ts| ==> ts[i] != ""
  }

  predicate NoSeparator(s: string) {
    forall k :: 0 <= k < |s| ==> s[k] !in Separators
  }

  /** Classifies `str` and splits a Unix-style option at its first separator.
      The body of a '-x' option is what follows the '-', of a '--x' option what
      follows the '--'; a '/x' option is never split.  ParseOptionShape states
      the result in full. */
  function ParseOption(str: string): (r: Parsed)
    requires str != ""
    ensures r.style == Unknown <==> !IsOptionStyle(str)
  {
    var ch := str[0];
    if ch != '-' && ch != '/' then Parsed(Unknown, "", "")
    else if ch == '/' then Parsed(Window, str[1..], "")
    else if |str| == 1 then Parsed(Single, "", "")
    else
      var style := if str[1] == '-' then Double else Single;
      var option := if str[1] == '-' then str[2..] else str[1..];
      var index := Text.IndexAny(option, Separators);
      if index != -1 then Parsed(style, option[..index], option[index + 1..])
      else Parsed(style, option, "")
  }

  /** What ParseOption yields for each kind of token: nothing for a bare one,
      the unsplit rest for a Windows-style one, and for a Unix-style one the
      body cut at its first separator, or the whole body without a value. */
  lemma ParseOptionShape(str: string)
    requires str != ""
    ensures var r := ParseOption(str);
            && (!IsOptionStyle(str) ==> r == Parsed(Unknown, "", ""))
            && (str[0] == '/' ==> r == Parsed(Window, str[1..], ""))
            && (str == "-" ==> r == Parsed(Single, "", ""))
            && (str[0] == '-' && |str| > 1 ==>
                  var body := if str[1] == '-' then str[2..] else str[1..];
                  && r.style == (if str[1] == '-' then Double else Single)
                  && NoSeparator(r.key)
                  && (if NoSeparator(body) then r.key == body && r.value == ""
                      else |r.key| < |body| && body[|r.key|] in Separators
                           && r.key + [body[|r.key|]] + r.value == body))
  {
    if str[0] == '-' && |str| > 1 {
      var body := if str[1] == '-' then str[2..] else str[1..];
      var index := Text.IndexAny(body, Separators);
      if index != -1 {
        assert body[..index] + [body[index]] + body[index + 1..] == body;
      }
    }
  }

  /** A long option written with '=' reads back as the key and value it was
      written from, whatever the value holds. */
  lemma LongOptionRoundTrip(key: string, value: string)
    requires NoSeparator(key)
    ensures ParseOption("--" + key + "=" + value) == Parsed(Double, key, value)
  {
    var str := "--" + key + "=" + value;
    assert str[2..] == key + "=" + value;
    LeadingKey(key, '=', value);
  }

  /** The same for a short option, whose key must not start with '-' (the
      token would be a long one). */
  lemma ShortOptionRoundTrip(key: string, sep: char, value: string)
    requires NoSeparator(key) && sep in Separators && (key == "" || key[0] != '-')
    ensures ParseOption("-" + key + [sep] + value) == Parsed(Single, key, value)
  {
    var str := "-" + key + [sep] + value;
    assert str[1..] == key + [sep] + value;
    LeadingKey(key, sep, value);
  }

  /** The first separator of key + [sep] + value is the one after the key. */
  lemma LeadingKey(key: string, sep: char, value: string)
    requires NoSeparator(key) && sep in Separators
    ensures var body := key + [sep] + value;
            Text.IndexAny(body, Separators) == |key| && body[..|key|] == key && body[|key| + 1..] == value
  {
    var body := key + [sep] + value;
    assert body[|key|] == sep;
    assert forall k :: 0 <= k < |key| ==> body[k] == key[k];
  }

  /** "-I/usr/include" sets I to "usr/include": the '/' is taken as the
      separator, not as part of the value. */
  lemma SlashAfterShortKeyIsSeparator()
    ensures ParseOption("-I/usr/include") == Parsed(Single, "I", "usr/include")
  {
    LeadingKey("I", '/', "usr/include");
    assert "-I/usr/include"[1..] == "I" + ['/'] + "usr/include";
  }

  /** A Windows-style token keeps its separators in the key: "/v:on" has key
      "v:on" and no value. */
  lemma WindowOptionIsNotSplit(rest: string)
    ensures ParseOption("/" + rest) == Parsed(Window, rest, "")
  {
    assert ("/" + rest)[1..] == rest;
  }
}
