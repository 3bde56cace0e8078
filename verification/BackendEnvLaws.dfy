/** The shell lines and the map agree, and a backend's route depends on nothing else. */
module BackendEnvLaws {
  import opened BackendEnv
  import Text
  import opened Wrappers

  /******* Reading the lines back *******/

  ghost predicate NulFree(value: string)
  {
    '\0' !in value
  }

  lemma {:induction false} FeedBoth(s: Shell, a: string, b: string)
    ensures FeedAll(s, a + b) == FeedAll(FeedAll(s, a), b)
    decreases |a|
  {
    if a == "" {
      assert a + b == b;
    } else {
      assert (a + b)[1..] == a[1..] + b;
      FeedBoth(Feed(s, a[0]), a[1..], b);
    }
  }

  lemma {:induction false} StaysFailed(text: string)
    ensures FeedAll(Failed, text) == Failed
    decreases |text|
  {
    if text != "" {
      StaysFailed(text[1..]);
    }
  }

  lemma {:induction false} FeedWord(s: Shell, word: string, more: string)
    requires s.Reading? && s.mode == Plain && s.word == Some(word) && forall i :: 0 <= i < |more| ==> Ordinary(more[i])
    ensures FeedAll(s, more) == s.(word := Some(word + more))
    decreases |more|
  {
    if more == "" {
      assert word + more == word;
    } else {
      var c := more[0];
      assert Feed(s, c) == s.(word := Some(word + [c]));
      FeedWord(s.(word := Some(word + [c])), word + [c], more[1..]);
      assert word + more == (word + [c]) + more[1..];
    }
  }

  // Inside quotes an escaped value comes out as it was, and a NUL fails.
  lemma {:induction false} FeedEscaped(s: Shell, word: string, value: string)
    requires s.Reading? && s.mode == Quoted && s.word == Some(word)
    ensures FeedAll(s, Escape(value)) == if NulFree(value) then s.(word := Some(word + value)) else Failed
    decreases |value|
  {
    if value == "" {
      assert word + value == word;
    } else {
      var c, rest := value[0], value[1..];
      var first := if c == '\'' then "'\\''" else [c];
      assert value == [c] + rest;
      assert Escape(value) == first + Escape(rest);
      FeedBoth(s, first, Escape(rest));
      if c == '\0' {
        FeedOne(s, c);
        StaysFailed(Escape(rest));
      } else {
        var next := s.(word := Some(word + [c]));
        if c == '\'' {
          FeedQuote(s, word);
        } else {
          FeedOne(s, c);
        }
        FeedEscaped(next, word + [c], rest);
        assert word + value == (word + [c]) + rest;
      }
    }
  }

  lemma {:induction false} FeedOne(s: Shell, c: char)
    ensures FeedAll(s, [c]) == Feed(s, c)
  {
    assert [c][1..] == "";
    assert FeedAll(Feed(s, c), "") == Feed(s, c);
  }

  // Out of the quotes, an escaped quote, and back in.
  lemma {:induction false} FeedQuote(s: Shell, word: string)
    requires s.Reading? && s.mode == Quoted && s.word == Some(word)
    ensures FeedAll(s, "'\\''") == s.(word := Some(word + "'"))
  {
    var out := s.(mode := Plain);
    var back := s.(mode := Plain, word := Some(word + "'"));
    FeedBoth(s, "'", "\\''");
    FeedBoth(out, "\\", "''");
    FeedBoth(out.(mode := Escaped), "'", "'");
    FeedOne(s, '\'');
    FeedOne(out, '\\');
    FeedOne(out.(mode := Escaped), '\'');
    FeedOne(back, '\'');
    assert "'\\''" == "'" + "\\''" && "\\''" == "\\" + "''" && "''" == "'" + "'";
    assert word + "'" + "" == word + "'";
  }

  lemma {:induction false} FeedStart(s: Shell, word: string)
    requires s.Reading? && s.mode == Plain && s.word.None?
    requires word != "" && forall i :: 0 <= i < |word| ==> Ordinary(word[i])
    ensures FeedAll(s, word) == s.(word := Some(word))
  {
    var c, rest := word[0], word[1..];
    assert word == [c] + rest;
    FeedBoth(s, [c], rest);
    FeedOne(s, c);
    assert "" + [c] == [c];
    FeedWord(s.(word := Some([c])), [c], rest);
  }

  // The first word of a line, and the blank after it.
  lemma {:induction false} FeedFirstWord(env: Env, first: string)
    requires first != "" && forall i :: 0 <= i < |first| ==> Ordinary(first[i])
    ensures FeedAll(Prompt(env), first + " ") == Reading(Plain, None, [first], env)
  {
    FeedBoth(Prompt(env), first, " ");
    FeedStart(Prompt(env), first);
    FeedOne(Prompt(env).(word := Some(first)), ' ');
    assert [] + [first] == [first];
  }

  lemma {:induction false} NameIsOrdinary(name: Name)
    requires IsName(name)
    ensures forall i :: 0 <= i < |name| ==> Ordinary(name[i])
    ensures '=' !in name
  {
  }

  lemma {:induction false} EqualsAfterName(name: Name, value: string)
    requires '=' !in name
    ensures Equals(name + "=" + value) == |name|
  {
    var s := name + "=" + value;
    assert s[|name|] == '=' && forall i :: 0 <= i < |name| ==> s[i] == name[i];
  }

  // What a line does once it is read.
  lemma {:induction false} UnsetEffect(name: Name, env: Env)
    requires IsName(name)
    ensures FeedAll(Prompt(env), UnsetLine(name)) == Reading(Plain, Some(name), ["unset"], env)
    ensures Execute(EndWord(Reading(Plain, Some(name), ["unset"], env))) == Prompt(env - {name})
  {
    NameIsOrdinary(name);
    assert "unset " + name == ("unset" + " ") + name;
    FeedBoth(Prompt(env), "unset" + " ", name);
    FeedFirstWord(env, "unset");
    FeedStart(Reading(Plain, None, ["unset"], env), name);
    assert ["unset"] + [name] == ["unset", name];
  }

  // A quoted value, after the name and the equals sign.
  lemma {:induction false} FeedQuotedValue(s: Shell, word: string, value: string)
    requires s.Reading? && s.mode == Plain && s.word == Some(word)
    ensures FeedAll(s, "'" + Escape(value) + "'") == if NulFree(value) then s.(word := Some(word + value)) else Failed
  {
    var quoted := s.(mode := Quoted);
    assert word + "" == word;
    assert "'" + Escape(value) + "'" == "'" + (Escape(value) + "'");
    FeedBoth(s, "'", Escape(value) + "'");
    FeedOne(s, '\'');
    FeedBoth(quoted, Escape(value), "'");
    FeedEscaped(quoted, word, value);
    if NulFree(value) {
      FeedOne(quoted.(word := Some(word + value)), '\'');
    } else {
      StaysFailed("'");
    }
  }

  lemma {:induction false} ExportRead(name: Name, value: string, env: Env)
    requires IsName(name)
    ensures FeedAll(Prompt(env), ExportLine(name, value)) ==
      if NulFree(value) then Reading(Plain, Some(name + "=" + value), ["export"], env) else Failed
  {
    NameIsOrdinary(name);
    var start, tail := Reading(Plain, None, ["export"], env), "'" + Escape(value) + "'";
    assert ExportLine(name, value) == ("export" + " ") + ((name + "=") + tail);
    FeedBoth(Prompt(env), "export" + " ", (name + "=") + tail);
    FeedFirstWord(env, "export");
    FeedBoth(start, name + "=", tail);
    FeedStart(start, name + "=");
    FeedQuotedValue(start.(word := Some(name + "=")), name + "=", value);
  }

  lemma {:induction false} ExportEffect(name: Name, value: string, env: Env)
    requires IsName(name)
    ensures Execute(EndWord(Reading(Plain, Some(name + "=" + value), ["export"], env))) == Prompt(env[name := value])
  {
    NameIsOrdinary(name);
    EqualsAfterName(name, value);
    var item := name + "=" + value;
    assert ["export"] + [item] == ["export", item];
    assert item[..|name|] == name && item[|name| + 1..] == value;
  }

  // The first line, and then the others in the environment it leaves.
  lemma {:induction false} FirstLine(line: string, read: Shell, rest: seq<string>, env: Env, env': Env)
    requires FeedAll(Prompt(env), line) == read && read.Reading? && read.mode == Plain
    requires Execute(EndWord(read)) == Prompt(env')
    ensures Eval(Join([line] + rest), env) == Eval(Join(rest), env')
  {
    if rest == [] {
      assert [line] + rest == [line];
      assert Eval("", env') == Finish(Prompt(env'));
    } else {
      assert ([line] + rest)[1..] == rest;
      assert line + "\n" + Join(rest) == line + ("\n" + Join(rest));
      FeedBoth(Prompt(env), line, "\n" + Join(rest));
      FeedBoth(read, "\n", Join(rest));
      FeedOne(read, '\n');
    }
  }

  lemma {:induction false} FailedLine(line: string, rest: seq<string>, env: Env)
    requires FeedAll(Prompt(env), line) == Failed
    ensures Eval(Join([line] + rest), env) == None
  {
    if rest == [] {
      assert [line] + rest == [line];
    } else {
      assert ([line] + rest)[1..] == rest;
      assert line + "\n" + Join(rest) == line + ("\n" + Join(rest));
      FeedBoth(Prompt(env), line, "\n" + Join(rest));
      StaysFailed("\n" + Join(rest));
    }
  }

  /******* Two readings of one set of changes *******/

  ghost predicate Names(d: Deltas)
  {
    (forall n :: n in d.unset ==> IsName(n)) && (forall i :: 0 <= i < |d.set_| ==> IsName(d.set_[i].0))
  }

  ghost predicate NoNuls(d: Deltas)
  {
    forall i :: 0 <= i < |d.set_| ==> NulFree(d.set_[i].1)
  }

  lemma {:induction false} AppliedOnce(d: Deltas, env: Env, a: Env, b: Env)
    requires Applied(d, env, a) && Applied(d, env, b)
    ensures a == b
  {
    forall n ensures n in a <==> n in b {
      if n in SetNames(d.set_) {
        var i :| 0 <= i < |d.set_| && d.set_[i].0 == n;
      }
    }
    forall n | n in a ensures a[n] == b[n] {
      if n in SetNames(d.set_) {
        var i :| 0 <= i < |d.set_| && d.set_[i].0 == n;
      }
    }
  }

  lemma {:induction false} EvalUnset(name: Name, rest: seq<string>, env: Env)
    requires IsName(name)
    ensures Eval(Join([UnsetLine(name)] + rest), env) == Eval(Join(rest), env - {name})
  {
    UnsetEffect(name, env);
    FirstLine(UnsetLine(name), Reading(Plain, Some(name), ["unset"], env), rest, env, env - {name});
  }

  lemma {:induction false} EvalExport(name: Name, value: string, rest: seq<string>, env: Env)
    requires IsName(name)
    ensures Eval(Join([ExportLine(name, value)] + rest), env) ==
            if NulFree(value) then Eval(Join(rest), env[name := value]) else None
  {
    ExportRead(name, value, env);
    if NulFree(value) {
      ExportEffect(name, value, env);
      FirstLine(ExportLine(name, value), Reading(Plain, Some(name + "=" + value), ["export"], env), rest, env,
          env[name := value]);
    } else {
      FailedLine(ExportLine(name, value), rest, env);
    }
  }

  lemma {:induction false} AppliedAfterUnset(d: Deltas, env: Env, result: Env)
    requires d.unset != [] && Applied(d, env, result)
    ensures Applied(d.(unset := d.unset[1..]), env - {d.unset[0]}, result)
  {
    assert d.unset == [d.unset[0]] + d.unset[1..];
  }

  lemma {:induction false} RestOfNames(items: seq<(Name, string)>)
    requires items != []
    ensures SetNames(items) == {items[0].0} + SetNames(items[1..])
  {
    var rest := items[1..];
    forall n ensures n in SetNames(items) <==> n == items[0].0 || n in SetNames(rest) {
      if n in SetNames(items) {
        var i :| 0 <= i < |items| && items[i].0 == n;
        assert i > 0 ==> rest[i - 1].0 == n;
      }
      if n in SetNames(rest) {
        var i :| 0 <= i < |rest| && rest[i].0 == n;
        assert items[i + 1].0 == n;
      }
    }
  }

  lemma {:induction false} AppliedAfterSet(d: Deltas, env: Env, result: Env)
    requires d.unset == [] && d.set_ != [] && DistinctNames(d.set_) && Applied(d, env, result)
    ensures Applied(d.(set_ := d.set_[1..]), env[d.set_[0].0 := d.set_[0].1], result) && DistinctNames(d.set_[1..])
  {
    RestOfNames(d.set_);
    assert forall i :: 0 <= i < |d.set_[1..]| ==> d.set_[1..][i] == d.set_[i + 1];
  }

  lemma {:induction false} RestOfLines(d: Deltas)
    ensures d.unset != [] ==> Lines(d) == [UnsetLine(d.unset[0])] + Lines(d.(unset := d.unset[1..]))
    ensures d.unset == [] && d.set_ != [] ==>
      Lines(d) == [ExportLine(d.set_[0].0, d.set_[0].1)] + Lines(d.(set_ := d.set_[1..]))
    ensures d.unset == [] && d.set_ != [] ==> (NoNuls(d) <==> NulFree(d.set_[0].1) && NoNuls(d.(set_ := d.set_[1..])))
  {
    if d.unset == [] && d.set_ != [] {
      assert d.set_ == [d.set_[0]] + d.set_[1..];
    }
  }

  /**
   * Evaluating the lines comes to the environment that the map form gives, for
   * every environment and all values, quotes and newlines included; a value with
   * a NUL, and nothing else, makes the lines fail.
   */
  lemma {:induction false} ShellAgrees(d: Deltas, env: Env, result: Env)
    requires Names(d) && DistinctNames(d.set_) && Applied(d, env, result)
    ensures Eval(Join(Lines(d)), env) == if NoNuls(d) then Some(result) else None
    decreases |d.unset| + |d.set_|
  {
    RestOfLines(d);
    if d.unset != [] {
      var rest := d.(unset := d.unset[1..]);
      AppliedAfterUnset(d, env, result);
      EvalUnset(d.unset[0], Lines(rest), env);
      ShellAgrees(rest, env - {d.unset[0]}, result);
    } else if d.set_ != [] {
      var name, value, rest := d.set_[0].0, d.set_[0].1, d.(set_ := d.set_[1..]);
      AppliedAfterSet(d, env, result);
      EvalExport(name, value, Lines(rest), env);
      ShellAgrees(rest, env[name := value], result);
    } else {
      assert Lines(d) == [];
      AppliedOnce(d, env, env, result);
    }
  }

  /******* What reaches the CLI *******/

  ghost function Lookup(env: Env, name: Name): Option<string>
  {
    if name in env then Some(env[name]) else None
  }

  ghost predicate Keyless(b: Backend)
  {
    IsClaude(b) && !Keyed(b)
  }

  // What a variable should be when a backend is used in an environment.
  ghost function Route(b: Backend, env: Env, name: Name): Option<string>
  {
    if name in {AUTH_TOKEN, BASE_URL, API_KEY} then Wanted(b, name)
    else if name == NO_BETAS then Some("1")
    else if name == SIMPLE && Keyless(b) then None
    else Lookup(env, name)
  }

  // A name that the changes set, or unset, or leave alone.
  lemma {:induction false} LookupApplied(d: Deltas, env: Env, result: Env, name: Name)
    requires DistinctNames(d.set_) && Applied(d, env, result)
    ensures forall v :: (name, v) in d.set_ ==> Lookup(result, name) == Some(v)
    ensures name !in SetNames(d.set_) ==> Lookup(result, name) == if name in d.unset then None else Lookup(env, name)
  {
    forall v | (name, v) in d.set_ ensures Lookup(result, name) == Some(v) {
      var i :| 0 <= i < |d.set_| && d.set_[i] == (name, v);
      assert d.set_[i].0 in result;
    }
  }

  /**
   * The endpoint, the key and the token that reach the CLI are what the backend
   * says, whatever the environment held; a keyless Claude backend never sees the
   * variable that disables its login; every other variable is as it was.
   */
  lemma {:induction false} RouteIsTheBackends(b: Backend, d: Deltas, env: Env, result: Env, name: Name)
    requires Implies(b, d) && Applied(d, env, result)
    ensures Lookup(result, name) == Route(b, env, name)
  {
    LookupApplied(d, env, result, name);
  }

  // The text a field holds: trimmed, or nothing if the field is absent or no text.
  ghost predicate Says(b: Backend, key: string, text: string)
  {
    if b.Record? && key in b.fields && b.fields[key].Str? then Text.Trims(b.fields[key].value, text) else text == ""
  }

  lemma {:induction false} SaysText(b: Backend, key: string, text: string)
    requires Says(b, key, text)
    ensures TextOf(b, key) == text
  {
    if b.Record? && key in b.fields && b.fields[key].Str? {
      Text.StripMeaning(b.fields[key].value);
      Text.TrimsOnce(b.fields[key].value, TextOf(b, key), text);
    }
  }

  /**
   * What the CLI finds in each variable: a Claude backend's own key and, beside a key,
   * its own address, and otherwise neither; never a token; no `CLAUDE_CODE_SIMPLE` for
   * a Claude backend without a key.  Every other variable is as it was.
   */
  lemma {:induction false} RouteInFull(b: Backend, d: Deltas, env: Env, result: Env, key: string, url: string)
    requires Implies(b, d) && Applied(d, env, result)
    requires Says(b, "api_key", key) && Says(b, "base_url", url)
    ensures var claude := b.Record? && "provider" in b.fields
                          && (b.fields["provider"] == Str("anthropic") || b.fields["provider"] == Str("claude_code"));
      && Lookup(result, "ANTHROPIC_AUTH_TOKEN") == None
      && Lookup(result, "ANTHROPIC_API_KEY") == (if claude && key != "" then Some(key) else None)
      && Lookup(result, "ANTHROPIC_BASE_URL") == (if claude && key != "" && url != "" then Some(url) else None)
      && Lookup(result, "CLAUDE_CODE_SIMPLE") ==
         (if claude && key == "" then None else Lookup(env, "CLAUDE_CODE_SIMPLE"))
      && Lookup(result, "CLAUDE_CODE_DISABLE_EXPERIMENTAL_BETAS") == Some("1")
    ensures forall n :: n !in {"ANTHROPIC_AUTH_TOKEN", "ANTHROPIC_API_KEY", "ANTHROPIC_BASE_URL",
                               "CLAUDE_CODE_SIMPLE", "CLAUDE_CODE_DISABLE_EXPERIMENTAL_BETAS"} ==>
              Lookup(result, n) == Lookup(env, n)
  {
    SaysText(b, "api_key", key);
    SaysText(b, "base_url", url);
    forall n ensures Lookup(result, n) == Route(b, env, n) {
      RouteIsTheBackends(b, d, env, result, n);
    }
    DifferentNames();
  }

  lemma {:induction false} DifferentNames()
    ensures |AUTH_TOKEN| == 20 && |BASE_URL| == 18 && |API_KEY| == 17 && |SIMPLE| == 18 && |NO_BETAS| == 38
    ensures BASE_URL[0] == 'A' && SIMPLE[0] == 'C'
  {
  }

  lemma {:induction false} RoutesAreNames()
    ensures IsName(AUTH_TOKEN) && IsName(BASE_URL) && IsName(API_KEY)
  {
  }

  lemma {:induction false} FlagsAreNames()
    ensures IsName(SIMPLE) && IsName(NO_BETAS)
  {
  }

  lemma {:induction false} ControlledAreNames()
    ensures forall n :: n in CONTROLLED ==> IsName(n)
  {
    RoutesAreNames();
    FlagsAreNames();
  }

  lemma {:induction false} NulsOfBackend(b: Backend, d: Deltas)
    requires Implies(b, d)
    ensures NoNuls(d) <==> (Keyed(b) ==> NulFree(TextOf(b, "api_key")) && NulFree(TextOf(b, "base_url")))
  {
    forall i | 0 <= i < |d.set_|
      ensures d.set_[i] == (NO_BETAS, "1") ||
              (d.set_[i].0 in {BASE_URL, API_KEY} && Wanted(b, d.set_[i].0) == Some(d.set_[i].1))
    {
      var item := d.set_[i];
      assert item.0 in SetNames(d.set_);
      var wanted := if item.0 == NO_BETAS then Some("1") else Wanted(b, item.0);
      assert (item.0, wanted.value) in d.set_;
      var j :| 0 <= j < |d.set_| && d.set_[j] == (item.0, wanted.value);
      assert i == j;
    }
    if Keyed(b) {
      assert (API_KEY, TextOf(b, "api_key")) in d.set_ by { assert Wanted(b, API_KEY).Some?; }
      assert TextOf(b, "base_url") != "" ==> (BASE_URL, TextOf(b, "base_url")) in d.set_ by {
        assert TextOf(b, "base_url") != "" ==> Wanted(b, BASE_URL).Some?;
      }
    }
  }

  /**
   * A terminal that evaluates a backend's lines ends up with the environment that a
   * turn of that backend is given, exactly if no NUL is in the key or the address.
   */
  lemma {:induction false} TerminalAgrees(b: Backend, d: Deltas, env: Env, result: Env)
    requires Implies(b, d) && Applied(d, env, result)
    ensures Eval(Join(Lines(d)), env) == Some(result) <==>
      (Keyed(b) ==> NulFree(TextOf(b, "api_key")) && NulFree(TextOf(b, "base_url")))
  {
    ControlledAreNames();
    assert Names(d) by {
      assert forall i :: 0 <= i < |d.set_| ==> d.set_[i].0 in SetNames(d.set_);
    }
    ShellAgrees(d, env, result);
    NulsOfBackend(b, d);
  }

  lemma {:induction false} SwitchingAt(b: Backend, d: Deltas, b': Backend, d': Deltas,
                                       env: Env, first: Env, second: Env, direct: Env, n: Name)
    requires Implies(b, d) && Applied(d, env, first)
    requires Implies(b', d') && Applied(d', first, second) && Applied(d', env, direct)
    ensures Lookup(second, n) == Lookup(direct, n) <==> !(n == SIMPLE && SIMPLE in env && Keyless(b) && !Keyless(b'))
  {
    RouteIsTheBackends(b, d, env, first, n);
    RouteIsTheBackends(b', d', first, second, n);
    RouteIsTheBackends(b', d', env, direct, n);
    SwitchedRoute(b, b', env, first, n);
  }

  lemma {:induction false} SwitchedRoute(b: Backend, b': Backend, env: Env, first: Env, n: Name)
    requires Lookup(first, n) == Route(b, env, n)
    ensures Route(b', first, n) == Route(b', env, n) <==> !(n == SIMPLE && SIMPLE in env && Keyless(b) && !Keyless(b'))
  {
  }

  /**
   * Switching from one backend to another in one environment comes to the same as
   * starting on the second, exactly unless the first one removed the variable that
   * the second one would have left alone.
   */
  lemma {:induction false} Switching(b: Backend, d: Deltas, b': Backend, d': Deltas,
                                     env: Env, first: Env, second: Env, direct: Env)
    requires Implies(b, d) && Applied(d, env, first)
    requires Implies(b', d') && Applied(d', first, second) && Applied(d', env, direct)
    ensures second == direct <==> !(SIMPLE in env && Keyless(b) && !Keyless(b'))
  {
    forall n
      ensures Lookup(second, n) == Lookup(direct, n) <==> !(n == SIMPLE && SIMPLE in env && Keyless(b) && !Keyless(b'))
    {
      SwitchingAt(b, d, b', d', env, first, second, direct, n);
    }
    SameLookups(second, direct);
  }

  lemma {:induction false} SameLookups(a: Env, b: Env)
    ensures a == b <==> forall n :: Lookup(a, n) == Lookup(b, n)
  {
    if forall n :: Lookup(a, n) == Lookup(b, n) {
      forall n ensures n in a <==> n in b {
        assert Lookup(a, n) == Lookup(b, n);
      }
      forall n | n in a ensures a[n] == b[n] {
        assert Lookup(a, n) == Lookup(b, n);
      }
    }
  }
}
