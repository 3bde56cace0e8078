/** The environment changes a backend implies, applied to a map or as shell lines. */
module BackendEnv {
  import Text
  import opened Wrappers

  type Name = string
  type Env = map<Name, string>

  // `set` in the order in which a dictionary lists its items.
  datatype Deltas = Deltas(set_: seq<(Name, string)>, unset: seq<Name>)

  const AUTH_TOKEN := "ANTHROPIC_AUTH_TOKEN"
  const BASE_URL := "ANTHROPIC_BASE_URL"
  const API_KEY := "ANTHROPIC_API_KEY"
  const SIMPLE := "CLAUDE_CODE_SIMPLE"
  const NO_BETAS := "CLAUDE_CODE_DISABLE_EXPERIMENTAL_BETAS"

  /******* On a map *******/

  ghost function SetNames(items: seq<(Name, string)>): set<Name>
  {
    set i | 0 <= i < |items| :: items[i].0
  }

  // The keys of a dictionary are distinct.
  ghost predicate DistinctNames(items: seq<(Name, string)>)
  {
    forall i, j :: 0 <= i < j < |items| ==> items[i].0 != items[j].0
  }

  // What the changes come to, name by name: set, or as it was unless unset.
  ghost predicate Applied(d: Deltas, env: Env, result: Env)
  {
    && (forall i :: 0 <= i < |d.set_| ==> d.set_[i].0 in result && result[d.set_[i].0] == d.set_[i].1)
    && (forall n :: n !in SetNames(d.set_) ==>
          (n in result <==> n in env && n !in d.unset) && (n in result ==> result[n] == env[n]))
  }

  // Without the first `n` unset names.
  ghost predicate UnsetUpTo(env: Env, unset: seq<Name>, n: nat, result: Env)
    requires n <= |unset|
  {
    forall m :: (m in result <==> m in env && m !in unset[..n]) && (m in result ==> result[m] == env[m])
  }

  method ApplyTo(d: Deltas, env: Env) returns (result: Env)
    requires DistinctNames(d.set_)
    ensures Applied(d, env, result)
  {
    result := env;
    for i := 0 to |d.unset|
      invariant UnsetUpTo(env, d.unset, i, result)
    {
      result := result - {d.unset[i]};
      assert d.unset[..i + 1] == d.unset[..i] + [d.unset[i]];
    }
    assert d.unset[..|d.unset|] == d.unset;
    for i := 0 to |d.set_|
      invariant Applied(Deltas(d.set_[..i], d.unset), env, result)
    {
      result := result[d.set_[i].0 := d.set_[i].1];
      assert d.set_[..i + 1] == d.set_[..i] + [d.set_[i]];
    }
    assert d.set_[..|d.set_|] == d.set_;
  }

  /******* A shell *******/

  // The shell of IEEE Std 1003.1, as far as the lines need it: words, single
  // quotes (section 2.2.2), backslashes (section 2.2.1), newlines, and the two
  // builtin utilities.  It fails on anything else.
  datatype Mode = Plain | Quoted | Escaped
  datatype Shell = Failed | Reading(mode: Mode, word: Option<string>, words: seq<string>, env: Env)

  predicate NameStart(c: char)
  {
    'a' <= c <= 'z' || 'A' <= c <= 'Z' || c == '_'
  }

  predicate NameChar(c: char)
  {
    NameStart(c) || '0' <= c <= '9'
  }

  predicate IsName(s: string)
  {
    s != "" && NameStart(s[0]) && forall i :: 0 <= i < |s| ==> NameChar(s[i])
  }

  // A character that stands for itself, wherever it stands.
  predicate Ordinary(c: char)
  {
    NameChar(c) || c in "=+,-./:@%"
  }

  function Extend(word: Option<string>, more: string): Option<string>
  {
    Some((if word.Some? then word.value else "") + more)
  }

  function EndWord(s: Shell): Shell
    requires s.Reading?
  {
    if s.word.Some? then s.(word := None, words := s.words + [s.word.value]) else s
  }

  // The position of the first equals sign, or the length.
  function Equals(s: string): (k: nat)
    ensures k <= |s| && (k < |s| ==> s[k] == '=') && forall i :: 0 <= i < k ==> s[i] != '='
  {
    if s == "" || s[0] == '=' then 0 else 1 + Equals(s[1..])
  }

  // A whole command has been read.
  function Execute(s: Shell): Shell
    requires s.Reading?
  {
    var done := s.(words := []);
    if s.words == [] then done
    else if |s.words| != 2 then Failed
    else if s.words[0] == "unset" then
      if IsName(s.words[1]) then done.(env := s.env - {s.words[1]}) else Failed
    else if s.words[0] == "export" then
      var k := Equals(s.words[1]);
      if k < |s.words[1]| && IsName(s.words[1][..k])
      then done.(env := s.env[s.words[1][..k] := s.words[1][k + 1..]])
      else Failed
    else Failed
  }

  function Feed(s: Shell, c: char): Shell
  {
    if s.Failed? || c == '\0' then Failed
    else match s.mode
      case Quoted => if c == '\'' then s.(mode := Plain) else s.(word := Extend(s.word, [c]))
      case Escaped => if c == '\n' then s.(mode := Plain) else s.(mode := Plain, word := Extend(s.word, [c]))
      case Plain =>
        if c == '\'' then s.(mode := Quoted, word := Extend(s.word, ""))
        else if c == '\\' then s.(mode := Escaped)
        else if c == ' ' || c == '\t' then EndWord(s)
        else if c == '\n' then Execute(EndWord(s))
        else if Ordinary(c) then s.(word := Extend(s.word, [c]))
        else Failed
  }

  function FeedAll(s: Shell, text: string): Shell
    decreases |text|
  {
    if text == "" then s else FeedAll(Feed(s, text[0]), text[1..])
  }

  // The environment after the lines, or none if they fail.
  function Eval(text: string, env: Env): Option<Env>
  {
    Finish(FeedAll(Prompt(env), text))
  }

  // Between two commands.
  function Prompt(env: Env): Shell
  {
    Reading(Plain, None, [], env)
  }

  function Finish(s: Shell): Option<Env>
  {
    if s.Failed? || s.mode != Plain then None
    else
      var last := Execute(EndWord(s));
      if last.Failed? then None else Some(last.env)
  }

  /******* As shell lines *******/

  // `value.replace("'", "'\\''")`
  function Escape(value: string): string
  {
    if value == "" then "" else (if value[0] == '\'' then "'\\''" else [value[0]]) + Escape(value[1..])
  }

  function UnsetLine(name: Name): string
  {
    "unset " + name
  }

  function ExportLine(name: Name, value: string): string
  {
    "export " + name + "='" + Escape(value) + "'"
  }

  ghost function Lines(d: Deltas): seq<string>
  {
    seq(|d.unset|, i requires 0 <= i < |d.unset| => UnsetLine(d.unset[i])) +
    seq(|d.set_|, i requires 0 <= i < |d.set_| => ExportLine(d.set_[i].0, d.set_[i].1))
  }

  // `"\n".join(lines)`
  function Join(lines: seq<string>): string
  {
    if lines == [] then ""
    else if |lines| == 1 then lines[0]
    else lines[0] + "\n" + Join(lines[1..])
  }

  method AsShell(d: Deltas) returns (text: string)
    ensures text == Join(Lines(d))
  {
    var lines := [];
    for i := 0 to |d.unset|
      invariant |lines| == i && lines == Lines(d)[..i]
    {
      lines := lines + [UnsetLine(d.unset[i])];
    }
    for i := 0 to |d.set_|
      invariant |lines| == |d.unset| + i && lines == Lines(d)[..|d.unset| + i]
    {
      lines := lines + [ExportLine(d.set_[i].0, d.set_[i].1)];
    }
    assert lines == Lines(d);
    return Join(lines);
  }

  /******* The changes a backend implies *******/

  datatype Field = Str(value: string) | NotText
  datatype Backend = NoRecord | Record(fields: map<string, Field>)

  // A stripped string, or "" for anything that is not usable text.
  function TextOf(b: Backend, key: string): string
  {
    if b.Record? && key in b.fields && b.fields[key].Str? then Text.Strip(b.fields[key].value) else ""
  }

  predicate IsClaude(b: Backend)
  {
    && b.Record? && "provider" in b.fields
    && b.fields["provider"] in {Str("anthropic"), Str("claude_code")}
  }

  // The backend is used with a key of its own.
  predicate Keyed(b: Backend)
  {
    IsClaude(b) && TextOf(b, "api_key") != ""
  }

  // Every variable the changes may mention.
  const CONTROLLED := {AUTH_TOKEN, BASE_URL, API_KEY, SIMPLE, NO_BETAS}

  // What the backend wants a variable to be: none means that it must be absent.
  ghost function Wanted(b: Backend, name: Name): Option<string>
    requires name in {AUTH_TOKEN, BASE_URL, API_KEY}
  {
    if name == BASE_URL && Keyed(b) && TextOf(b, "base_url") != "" then Some(TextOf(b, "base_url"))
    else if name == API_KEY && Keyed(b) then Some(TextOf(b, "api_key"))
    else None
  }

  // The changes set or unset each of the three route variables as wanted; they unset
  // `SIMPLE` exactly for a keyless Claude backend, and mention nothing else.
  ghost predicate Implies(b: Backend, d: Deltas)
  {
    && DistinctNames(d.set_)
    && (forall n :: n in d.unset ==> n in CONTROLLED && n !in SetNames(d.set_))
    && (forall n :: n in SetNames(d.set_) ==> n in CONTROLLED)
    && (forall n :: n in {AUTH_TOKEN, BASE_URL, API_KEY} ==>
          if Wanted(b, n).Some? then (n, Wanted(b, n).value) in d.set_ else n in d.unset)
    && (SIMPLE in d.unset <==> IsClaude(b) && !Keyed(b))
    && SIMPLE !in SetNames(d.set_) && (NO_BETAS, "1") in d.set_
  }

  method DeltasOf(b: Backend) returns (d: Deltas)
    ensures Implies(b, d)
  {
    var set_, unset := [(NO_BETAS, "1")], [AUTH_TOKEN];
    if !IsClaude(b) {
      return Deltas(set_, unset + [BASE_URL] + [API_KEY]);
    }
    var apiKey := TextOf(b, "api_key");
    if apiKey != "" {
      var baseUrl := TextOf(b, "base_url");
      if baseUrl != "" {
        set_ := set_ + [(BASE_URL, baseUrl)];
      } else {
        unset := unset + [BASE_URL];
      }
      set_ := set_ + [(API_KEY, apiKey)];
    } else {
      unset := unset + [BASE_URL] + [API_KEY] + [SIMPLE];
    }
    d := Deltas(set_, unset);
  }
}
