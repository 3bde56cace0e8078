/** When an attempt is thrown away, which one is kept, and what is passed on, in a caller's terms. */
module TurnRetries {
  import Text
  import opened TurnStream
  import opened TurnStreamLaws
  import opened Wrappers

  /******* Tokens *******/

  // The total of no numbers is 0, of one number itself, and of two lists the sum of
  // theirs: there is only one such function.
  lemma {:induction false} SumMeaning(x: int, a: seq<int>, b: seq<int>)
    ensures Sum([]) == 0 && Sum([x]) == x && Sum(a + b) == Sum(a) + Sum(b)
  {
    assert [x][1..] == [];
    if a == [] {
      assert a + b == b;
    } else {
      assert (a + b)[1..] == a[1..] + b;
      SumMeaning(x, a[1..], b);
    }
  }

  lemma {:induction false} SumUnique(total: seq<int> -> int, a: seq<int>)
    requires total([]) == 0 && (forall x :: total([x]) == x) && forall b, c :: total(b + c) == total(b) + total(c)
    ensures total(a) == Sum(a)
  {
    if a != [] {
      SumUnique(total, a[1..]);
      assert a == [a[0]] + a[1..];
    }
  }

  /******* One attempt *******/

  // The first terminal event is at `e`.
  ghost predicate EndsAt(a: Attempt, e: nat)
  {
    e < |a| && Terminal(a[e]) && forall i :: 0 <= i < e ==> !Terminal(a[i])
  }

  // The last usage frame before `e` is at `u`.
  ghost predicate LastFrameAt(a: Attempt, e: nat, u: nat)
    requires e <= |a|
  {
    u < e && a[u].Usage? && forall i :: u < i < e ==> !a[i].Usage?
  }

  ghost predicate NoFrame(a: Attempt, e: nat)
    requires e <= |a|
  {
    forall i :: 0 <= i < e ==> !a[i].Usage?
  }

  ghost predicate NoText(a: Attempt, e: nat)
    requires e <= |a|
  {
    forall i :: 0 <= i < e && a[i].Text? ==> Text.AllSpace(a[i].content)
  }

  // The tokens that the last frame before `e` reports, none without a frame, are fewer
  // than the floor.
  ghost predicate FewTokens(a: Attempt, e: nat, floor: int)
    requires e <= |a|
  {
    && (NoFrame(a, e) ==> 0 < floor)
    && forall u: nat :: LastFrameAt(a, e, u) ==> Sum(a[u].frame.outputTokens) < floor
  }

  // The attempt is done and has no text and too few tokens.
  ghost predicate Blank(a: Attempt, floor: int)
  {
    exists e: nat :: EndsAt(a, e) && a[e].Done? && NoText(a, e) && FewTokens(a, e, floor)
  }

  lemma {:induction false} EndsAtEnd(a: Attempt, e: nat)
    ensures EndsAt(a, e) <==> Ended(a) && e == End(a)
  {
  }

  lemma {:induction false} TextIsBlank(a: Attempt, n: nat)
    requires n <= |a|
    ensures Text.AllSpace(TextUpTo(a, n)) <==> NoText(a, n)
  {
    if n > 0 {
      TextIsBlank(a, n - 1);
      var before, last := TextUpTo(a, n - 1), if a[n - 1].Text? then a[n - 1].content else "";
      BothBlank(before, last);
      assert NoText(a, n) <==> NoText(a, n - 1) && (a[n - 1].Text? ==> Text.AllSpace(a[n - 1].content));
    }
  }

  lemma {:induction false} BothBlank(x: string, y: string)
    ensures Text.AllSpace(x + y) <==> Text.AllSpace(x) && Text.AllSpace(y)
  {
    if Text.AllSpace(x + y) {
      assert forall i :: 0 <= i < |x| ==> (x + y)[i] == x[i];
      assert forall i :: 0 <= i < |y| ==> (x + y)[|x| + i] == y[i];
    }
  }

  /** The frame held back is the last one, and none if there is none. */
  lemma {:induction false} HeldFrameIsLast(a: Attempt, n: nat)
    requires n <= |a|
    ensures UsageUpTo(a, n) == None <==> NoFrame(a, n)
    ensures forall u: nat :: LastFrameAt(a, n, u) ==> UsageUpTo(a, n) == Some(a[u].frame)
    ensures UsageUpTo(a, n).Some? ==> exists u: nat :: LastFrameAt(a, n, u)
  {
    if n > 0 {
      HeldFrameIsLast(a, n - 1);
      if a[n - 1].Usage? {
        assert LastFrameAt(a, n, n - 1);
      } else {
        forall u: nat ensures LastFrameAt(a, n, u) <==> LastFrameAt(a, n - 1, u) {
        }
        if UsageUpTo(a, n).Some? {
          var u: nat :| LastFrameAt(a, n - 1, u);
          assert LastFrameAt(a, n, u);
        }
      }
    }
  }

  lemma {:induction false} TokensAreFew(a: Attempt, e: nat, floor: int)
    requires e <= |a|
    ensures FewTokens(a, e, floor) <==>
            Sum(if UsageUpTo(a, e).Some? then UsageUpTo(a, e).value.outputTokens else []) < floor
  {
    HeldFrameIsLast(a, e);
    assert Sum([]) == 0;
  }

  lemma {:induction false} DiscardedExactly(a: Attempt, k: nat, max: int, floor: int)
    ensures Discarded(a, k, max, floor) <==> k < max && Blank(a, floor)
  {
    var e := End(a);
    EndsAtEnd(a, e);
    Text.StripMeaning(TextUpTo(a, e));
    TextIsBlank(a, e);
    TokensAreFew(a, e, floor);
    if Blank(a, floor) {
      var f: nat :| EndsAt(a, f) && a[f].Done? && NoText(a, f) && FewTokens(a, f, floor);
      EndsAtEnd(a, f);
    }
  }

  /******* The turn *******/

  /**
   * An attempt of a turn is followed by another one exactly if it is not the last that
   * is allowed and is done without text and with fewer tokens than the floor.
   */
  lemma {:induction false} RetriedExactly(t: Turn, m: nat, k: nat)
    requires Made(t, m) && 1 <= k <= m
    ensures k < m <==> k < t.max && Blank(t.attempts(k), t.minTokens)
  {
    DiscardedExactly(t.attempts(k), k, t.max, t.minTokens);
    if k < m {
      assert Retries(t, k);
    }
  }

  /**
   * The attempt that is kept is the first that is not blank, or the last that is
   * allowed: nothing else decides.
   */
  lemma {:induction false} KeptExactly(t: Turn, m: nat)
    requires t.max >= 1
    ensures Made(t, m) <==>
      && 1 <= m <= t.max && (m == t.max || !Blank(t.attempts(m), t.minTokens))
      && forall k: nat :: 1 <= k < m ==> Blank(t.attempts(k), t.minTokens)
  {
    forall k: nat ensures Retries(t, k) <==> k < t.max && Blank(t.attempts(k), t.minTokens) {
      DiscardedExactly(t.attempts(k), k, t.max, t.minTokens);
    }
  }

  lemma {:induction false} BlankAt(a: Attempt, e: nat, floor: int)
    requires EndsAt(a, e)
    ensures Blank(a, floor) <==> a[e].Done? && NoText(a, e) && FewTokens(a, e, floor)
  {
    forall f: nat ensures EndsAt(a, f) <==> f == e {
      EndsAtEnd(a, f);
      EndsAtEnd(a, e);
    }
  }

  /**
   * So the first attempt with text, with enough tokens or with an error is the one that
   * is kept.
   */
  lemma {:induction false} FirstAnswerIsKept(t: Turn, m: nat, k: nat, e: nat)
    requires t.max >= 1 && Made(t, m) && 1 <= k <= t.max && EndsAt(t.attempts(k), e)
    requires var a := t.attempts(k); a[e].Error? || !NoText(a, e) || !FewTokens(a, e, t.minTokens)
    requires forall i: nat :: 1 <= i < k ==> Blank(t.attempts(i), t.minTokens)
    ensures m == k
  {
    KeptExactly(t, m);
    BlankAt(t.attempts(k), e, t.minTokens);
  }

  /******* What is passed on *******/

  // The positions of the first `n` events that are no usage frames.
  ghost function Others(a: Attempt, n: nat): set<nat>
    requires n <= |a|
  {
    set i: nat | i < n && !a[i].Usage?
  }

  lemma {:induction false} OneMoreOther(a: Attempt, n: nat)
    requires 0 < n <= |a|
    ensures |Others(a, n)| == |Others(a, n - 1)| + if a[n - 1].Usage? then 0 else 1
  {
    if a[n - 1].Usage? {
      assert Others(a, n) == Others(a, n - 1);
    } else {
      assert Others(a, n) == Others(a, n - 1) + {n - 1};
    }
  }

  /** Every event but usage frames is passed on, in order, and nothing else is. */
  lemma {:induction false} PassedInOrder(a: Attempt, n: nat)
    requires n <= |a|
    ensures |PassedUpTo(a, n)| == |Others(a, n)|
    ensures forall i :: 0 <= i < n && !a[i].Usage? ==>
            |Others(a, i)| < |PassedUpTo(a, n)| && PassedUpTo(a, n)[|Others(a, i)|] == a[i]
  {
    if n > 0 {
      PassedInOrder(a, n - 1);
      OneMoreOther(a, n);
    }
  }

  /**
   * Each attempt that is thrown away adds its events and then one notice: the number of
   * the next attempt, and how many retries there are.
   */
  lemma {:induction false} NoticeAfterRetry(t: Turn, m: nat, k: nat)
    requires Made(t, m) && 1 <= k < m
    ensures Before(t, k + 1) ==
            Before(t, k) + (PassedUpTo(t.attempts(k), End(t.attempts(k))) + [Retrying(k + 1, t.max - 1)])
  {
    assert Retries(t, k);
    NoticeOf(t, k);
  }

  lemma {:induction false} NoticeOf(t: Turn, k: nat)
    requires Retries(t, k)
    ensures var a := t.attempts(k);
      LiveOf(a, k, t.max, t.minTokens) == PassedUpTo(a, End(a)) + [Retrying(k + 1, t.max - 1)]
  {
  }

  /** The kept attempt adds its events, and, if it ended, its last frame and its end. */
  lemma {:induction false} KeptAttempt(t: Turn, m: nat)
    requires t.max >= 1 && Made(t, m)
    ensures var a := t.attempts(m);
      Live(t, m) == Before(t, m) + (PassedUpTo(a, End(a)) +
                    if Ended(a) then Held(UsageUpTo(a, End(a))) + [a[End(a)]] else [])
  {
  }
}
