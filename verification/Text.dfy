/** Python's view of white space: `str.isspace`, `str.strip` and `str.split`. */
module Text {

  predicate IsSpace(c: char)
  {
    var n := c as int;
    || 0x09 <= n <= 0x0d || 0x1c <= n <= 0x20
    || n == 0x85 || n == 0xa0 || n == 0x1680 || 0x2000 <= n <= 0x200a
    || n == 0x2028 || n == 0x2029 || n == 0x202f || n == 0x205f || n == 0x3000
  }

  predicate AllSpace(s: string)
  {
    forall i :: 0 <= i < |s| ==> IsSpace(s[i])
  }

  function LStrip(s: string): string
  {
    if s != [] && IsSpace(s[0]) then LStrip(s[1..]) else s
  }

  function RStrip(s: string): string
  {
    if s != [] && IsSpace(s[|s| - 1]) then RStrip(s[..|s| - 1]) else s
  }

  function Strip(s: string): string
  {
    RStrip(LStrip(s))
  }

  // The maximal run of non-space characters at the front of `s`.
  function Word(s: string): (w: string)
    ensures |w| <= |s|
  {
    if s == [] || IsSpace(s[0]) then [] else [s[0]] + Word(s[1..])
  }

  // `" ".join(s.split())`
  function Collapse(s: string): string
    decreases |LStrip(s)|, |s|
  {
    if s == [] then []
    else if IsSpace(s[0]) then Collapse(s[1..])
    else
      var w := Word(s);
      AfterWord(s);
      var rest := Collapse(s[|w|..]);
      if rest == [] then w else w + " " + rest
  }

  // The text on one line: the only white space in it is blanks between words.
  predicate OneLine(s: string)
  {
    && (s != [] ==> !IsSpace(s[0]) && !IsSpace(s[|s| - 1]))
    && (forall c :: c in s && IsSpace(c) ==> c == ' ')
  }

  lemma {:induction false} LStripMeaning(s: string)
    ensures var r := LStrip(s);
      && (r == [] <==> AllSpace(s)) && (r != [] ==> !IsSpace(r[0]))
      && |r| <= |s| && r == s[|s| - |r|..]
  {
    if s != [] && IsSpace(s[0]) {
      LStripMeaning(s[1..]);
      assert forall i :: 0 <= i < |s| ==> s[i] == if i == 0 then s[0] else s[1..][i - 1];
    }
  }

  lemma {:induction false} RStripMeaning(s: string)
    requires s != [] && !IsSpace(s[0])
    ensures var r := RStrip(s); r != [] && r[0] == s[0] && !IsSpace(r[|r| - 1])
  {
    if IsSpace(s[|s| - 1]) {
      RStripMeaning(s[..|s| - 1]);
    }
  }

  lemma {:induction false} RStripPrefix(s: string)
    ensures RStrip(s) <= s && AllSpace(s[|RStrip(s)|..])
  {
    if s != [] && IsSpace(s[|s| - 1]) {
      RStripPrefix(s[..|s| - 1]);
    }
  }

  lemma {:induction false} LStripDrops(s: string)
    ensures |LStrip(s)| <= |s| && LStrip(s) == s[|s| - |LStrip(s)|..] && AllSpace(s[..|s| - |LStrip(s)|])
  {
    if s != [] && IsSpace(s[0]) {
      LStripDrops(s[1..]);
      var n := |s| - |LStrip(s)|;
      assert s[..n] == [s[0]] + s[1..][..n - 1];
    }
  }

  // `r` is `s` without the white space at its ends, and without anything else less.
  ghost predicate Trims(s: string, r: string)
  {
    && (r != [] ==> !IsSpace(r[0]) && !IsSpace(r[|r| - 1]))
    && exists a, b :: AllSpace(a) && AllSpace(b) && s == a + r + b
  }

  /**
   * Stripping takes white space off both ends and nothing else, and leaves nothing
   * exactly of blank texts.
   */
  lemma {:induction false} StripMeaning(s: string)
    ensures Trims(s, Strip(s)) && (Strip(s) == [] <==> AllSpace(s))
  {
    LStripMeaning(s);
    LStripDrops(s);
    var l := LStrip(s);
    RStripPrefix(l);
    if l != [] {
      RStripMeaning(l);
    }
    var a, b := s[..|s| - |l|], l[|Strip(s)|..];
    assert s == a + Strip(s) + b;
  }

  lemma {:induction false} BlankEnds(s: string, a: string, r: string, b: string)
    requires AllSpace(a) && AllSpace(b) && s == a + r + b
    ensures forall i :: 0 <= i < |a| || |a| + |r| <= i < |s| ==> IsSpace(s[i])
  {
    forall i | |a| + |r| <= i < |s| ensures IsSpace(s[i]) {
      assert s[i] == b[i - |a| - |r|];
    }
  }

  // A text trims to one text only.
  lemma {:induction false} TrimsOnce(s: string, r: string, r': string)
    requires Trims(s, r) && Trims(s, r')
    ensures r == r'
  {
    var a, b :| AllSpace(a) && AllSpace(b) && s == a + r + b;
    var a', b' :| AllSpace(a') && AllSpace(b') && s == a' + r' + b';
    BlankEnds(s, a, r, b);
    BlankEnds(s, a', r', b');
    assert r == s[|a|..|a| + |r|] && r' == s[|a'|..|a'| + |r'|];
    assert r != [] ==> s[|a|] == r[0] && s[|a| + |r| - 1] == r[|r| - 1];
    assert r' != [] ==> s[|a'|] == r'[0] && s[|a'| + |r'| - 1] == r'[|r'| - 1];
  }

  // White space in front of a text does not survive stripping.
  lemma {:induction false} StripAfterSpace(a: string, b: string)
    requires AllSpace(a)
    ensures Strip(a + b) == Strip(b)
  {
    if a == [] {
      assert a + b == b;
    } else {
      assert (a + b)[1..] == a[1..] + b;
      StripAfterSpace(a[1..], b);
    }
  }

  lemma {:induction false} WordMeaning(s: string)
    ensures forall c :: c in Word(s) ==> !IsSpace(c)
    ensures s != [] && !IsSpace(s[0]) ==> Word(s) != []
    ensures Word(s) == s[..|Word(s)|] && (|Word(s)| < |s| ==> IsSpace(s[|Word(s)|]))
  {
    if s != [] && !IsSpace(s[0]) {
      WordMeaning(s[1..]);
      assert s == [s[0]] + s[1..];
    }
  }

  lemma {:induction false} AfterWord(s: string)
    requires s != [] && !IsSpace(s[0])
    ensures |LStrip(s[|Word(s)|..])| < |LStrip(s)|
  {
    LStripMeaning(s[|Word(s)|..]);
  }

  // A collapsed text is on one line, and empty exactly for blank texts.
  lemma {:induction false} CollapseMeaning(s: string)
    ensures OneLine(Collapse(s)) && (Collapse(s) == [] <==> AllSpace(s))
    decreases |LStrip(s)|, |s|
  {
    if s != [] && IsSpace(s[0]) {
      CollapseMeaning(s[1..]);
      assert forall i :: 0 <= i < |s| ==> s[i] == if i == 0 then s[0] else s[1..][i - 1];
    } else if s != [] {
      var w := Word(s);
      WordMeaning(s);
      AfterWord(s);
      CollapseMeaning(s[|w|..]);
      assert w[0] in w && w[|w| - 1] in w;
    }
  }

  /******* What collapsing keeps *******/

  // The characters of `r` are those of `s` at the positions `at`, in order, a blank for
  // white space; what is left out of `s` is white space.
  ghost predicate TakenFrom(s: string, r: string, at: seq<nat>)
  {
    && |at| == |r|
    && (forall i, j :: 0 <= i < j < |at| ==> at[i] < at[j])
    && (forall j :: 0 <= j < |at| ==> at[j] < |s| && r[j] == if IsSpace(s[at[j]]) then ' ' else s[at[j]])
    && AllTaken(s, at)
  }

  // Characters that are no white space stand together in `r` only if they do in `s`, and
  // otherwise have one blank between them.
  ghost predicate Spaced(r: string, at: seq<nat>)
    requires |at| == |r|
  {
    && (forall j :: 0 <= j < |r| - 1 && !IsSpace(r[j]) && !IsSpace(r[j + 1]) ==> at[j + 1] == at[j] + 1)
    && (forall j :: 0 <= j < |r| - 1 && IsSpace(r[j]) ==> !IsSpace(r[j + 1]))
  }

  ghost predicate Collapses(s: string, r: string)
  {
    OneLine(r) && exists at :: TakenFrom(s, r, at) && Spaced(r, at)
  }

  function Shifted(at: seq<nat>, n: nat): seq<nat>
  {
    seq(|at|, i requires 0 <= i < |at| => at[i] + n)
  }

  function Upto(n: nat): seq<nat>
  {
    seq(n, i => i)
  }

  // Every character of `s` that is no white space is taken.
  ghost predicate TakenAt(s: string, at: seq<nat>, i: nat)
    requires i < |s|
  {
    !IsSpace(s[i]) ==> i in at
  }

  ghost predicate AllTaken(s: string, at: seq<nat>)
  {
    forall i :: 0 <= i < |s| ==> TakenAt(s, at, i)
  }

  lemma {:induction false} AllTakenBehind(a: string, s: string, at: seq<nat>)
    requires AllSpace(a) && AllTaken(s, at)
    ensures AllTaken(a + s, Shifted(at, |a|))
  {
    forall i | 0 <= i < |a + s| ensures TakenAt(a + s, Shifted(at, |a|), i) {
      if !IsSpace((a + s)[i]) {
        assert (a + s)[i] == s[i - |a|] && TakenAt(s, at, i - |a|);
        var k :| 0 <= k < |at| && at[k] == i - |a|;
        assert Shifted(at, |a|)[k] == i;
      }
    }
  }

  lemma {:induction false} TakenBehind(a: string, s: string, r: string, at: seq<nat>)
    requires AllSpace(a) && TakenFrom(s, r, at) && Spaced(r, at)
    ensures TakenFrom(a + s, r, Shifted(at, |a|)) && Spaced(r, Shifted(at, |a|))
  {
    AllTakenBehind(a, s, at);
    assert forall j :: 0 <= j < |at| ==> (a + s)[at[j] + |a|] == s[at[j]];
  }

  lemma {:induction false} OneWord(s: string, w: string)
    requires w <= s && (forall c :: c in w ==> !IsSpace(c)) && AllSpace(s[|w|..])
    ensures TakenFrom(s, w, Upto(|w|)) && Spaced(w, Upto(|w|))
  {
    forall i | |w| <= i < |s| ensures IsSpace(s[i]) {
      assert s[i] == s[|w|..][i - |w|];
    }
    assert forall i :: 0 <= i < |w| ==> Upto(|w|)[i] == i;
  }

  // The positions of a word of `n` characters, the blank behind it, and the rest.
  function WordAnd(n: nat, at: seq<nat>): seq<nat>
  {
    Upto(n) + [n] + Shifted(at, n)
  }

  lemma {:induction false} WordThen(s: string, n: nat, r: string, at: seq<nat>)
    requires n < |s| && IsSpace(s[n]) && TakenFrom(s[n..], r, at) && r != [] && !IsSpace(r[0])
    ensures var all := WordAnd(n, at);
      && |all| == n + 1 + |at| && (forall j :: 0 <= j <= n ==> all[j] == j)
      && (forall j :: n < j < |all| ==> all[j] == at[j - n - 1] + n && n < all[j] < |s|)
      && (forall i, j :: 0 <= i < j < |all| ==> all[i] < all[j])
  {
    var all := WordAnd(n, at);
    assert at[0] != 0;
    forall j | n < j < |all| ensures n < all[j] < |s| {
      assert at[0] <= at[j - n - 1] < |s[n..]|;
    }
  }

  lemma {:induction false} AllWordsTaken(s: string, n: nat, r: string, at: seq<nat>)
    requires n < |s| && IsSpace(s[n]) && TakenFrom(s[n..], r, at) && r != [] && !IsSpace(r[0])
    ensures AllTaken(s, WordAnd(n, at))
  {
    var all := WordAnd(n, at);
    WordThen(s, n, r, at);
    forall i | 0 <= i < |s| ensures TakenAt(s, all, i) {
      if i < n {
        assert all[i] == i;
      } else if !IsSpace(s[i]) {
        assert s[n..][i - n] == s[i] && TakenAt(s[n..], at, i - n);
        var k :| 0 <= k < |at| && at[k] == i - n;
        assert all[n + 1 + k] == i;
      }
    }
  }

  lemma {:induction false} WordTaken(s: string, w: string, r: string, at: seq<nat>)
    requires w != [] && |w| < |s| && w == s[..|w|] && IsSpace(s[|w|]) && forall c :: c in w ==> !IsSpace(c)
    requires TakenFrom(s[|w|..], r, at) && r != [] && !IsSpace(r[0])
    ensures TakenFrom(s, w + " " + r, WordAnd(|w|, at))
  {
    var n, all, out := |w|, WordAnd(|w|, at), w + " " + r;
    AllWordsTaken(s, n, r, at);
    WordThen(s, n, r, at);
    forall j | 0 <= j < |all| ensures all[j] < |s| && out[j] == if IsSpace(s[all[j]]) then ' ' else s[all[j]] {
      if j < n {
        assert out[j] == w[j] && w[j] in w;
      } else if j > n {
        assert out[j] == r[j - n - 1] && s[all[j]] == s[n..][at[j - n - 1]];
      }
    }
  }

  lemma {:induction false} WordSpaced(s: string, w: string, r: string, at: seq<nat>)
    requires |w| < |s| && IsSpace(s[|w|]) && forall c :: c in w ==> !IsSpace(c)
    requires TakenFrom(s[|w|..], r, at) && Spaced(r, at) && r != [] && !IsSpace(r[0])
    ensures Spaced(w + " " + r, WordAnd(|w|, at))
  {
    var n, all, out := |w|, WordAnd(|w|, at), w + " " + r;
    WordThen(s, n, r, at);
    forall j | 0 <= j < |out| - 1
      ensures !IsSpace(out[j]) && !IsSpace(out[j + 1]) ==> all[j + 1] == all[j] + 1
      ensures IsSpace(out[j]) ==> !IsSpace(out[j + 1])
    {
      if j < n {
        assert out[j] == w[j] && w[j] in w;
      } else if j == n {
        assert out[j + 1] == r[0];
      } else {
        assert out[j] == r[j - n - 1] && out[j + 1] == r[j - n];
      }
    }
  }

  /**
   * A collapsed text loses, makes up and reorders no word: its characters are those of
   * the text but for white space, each run of it between two words being one blank.
   */
  lemma {:induction false} CollapseKeeps(s: string) returns (at: seq<nat>)
    ensures TakenFrom(s, Collapse(s), at) && Spaced(Collapse(s), at)
    decreases |LStrip(s)|, |s|
  {
    if s == [] {
      at := [];
    } else if IsSpace(s[0]) {
      var tail := CollapseKeeps(s[1..]);
      at := Shifted(tail, 1);
      TakenBehind([s[0]], s[1..], Collapse(s[1..]), tail);
      assert [s[0]] + s[1..] == s;
    } else {
      var w := Word(s);
      WordMeaning(s);
      AfterWord(s);
      var tail := CollapseKeeps(s[|w|..]);
      CollapseMeaning(s[|w|..]);
      if Collapse(s[|w|..]) == [] {
        at := Upto(|w|);
        OneWord(s, w);
      } else {
        at := WordAnd(|w|, tail);
        WordTaken(s, w, Collapse(s[|w|..]), tail);
        WordSpaced(s, w, Collapse(s[|w|..]), tail);
      }
    }
  }

  lemma {:induction false} CollapseCollapses(s: string)
    ensures Collapses(s, Collapse(s))
  {
    CollapseMeaning(s);
    var _ := CollapseKeeps(s);
  }
}
