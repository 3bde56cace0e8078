/** What a streamed turn promises: one ending, every usage frame once, the kept text. */
module TurnStreamLaws {
  import opened TurnStream
  import Text
  import opened Wrappers

  /******* Attempts *******/

  /**
   * Every turn makes some number of attempts, at least one and at most one more
   * than the configured retries, and the settings and the answers decide which.
   */
  lemma {:induction false} AttemptsMade(t: Turn, k: nat) returns (m: nat)
    requires 1 <= k <= t.max && Making(t, k)
    ensures Made(t, m) && k <= m <= t.max && forall other :: Made(t, other) ==> other == m
    decreases t.max - k
  {
    if Retries(t, k) {
      m := AttemptsMade(t, k + 1);
    } else {
      m := k;
    }
  }

  /******* Endings *******/

  ghost predicate NoTerminal(events: seq<Event>)
  {
    forall e :: e in events ==> !Terminal(e)
  }

  lemma {:induction false} PassedOpen(a: Attempt, n: nat)
    requires n <= End(a)
    ensures NoTerminal(PassedUpTo(a, n))
  {
    if n > 0 {
      PassedOpen(a, n - 1);
    }
  }

  lemma {:induction false} DiscardedHasNoEnd(a: Attempt, k: nat, max: int, minTokens: int)
    requires Discarded(a, k, max, minTokens)
    ensures NoTerminal(LiveOf(a, k, max, minTokens))
  {
    PassedOpen(a, End(a));
  }

  lemma {:induction false} LastRetryHasNoEnd(t: Turn, k: nat)
    requires k > 1 && Making(t, k)
    ensures NoTerminal(LiveOf(t.attempts(k - 1), k - 1, t.max, t.minTokens))
  {
    assert Retries(t, k - 1);
    DiscardedHasNoEnd(t.attempts(k - 1), k - 1, t.max, t.minTokens);
  }

  lemma {:induction false} NoEarlyEnd(t: Turn, k: nat)
    requires Making(t, k)
    ensures NoTerminal(Before(t, k))
  {
    if k > 1 {
      NoEarlyEnd(t, k - 1);
      LastRetryHasNoEnd(t, k);
      BeforeOneMore(t, k - 1);
    }
  }

  /**
   * A turn yields a terminal event exactly if its last attempt ended with one: that
   * event, as the last one, and no other.
   */
  lemma {:induction false} OneEnding(t: Turn, m: nat)
    requires t.max >= 1 && Made(t, m)
    ensures var live, a := Live(t, m), t.attempts(m);
      && (forall i :: 0 <= i < |live| ==> (Terminal(live[i]) <==> Ended(a) && i == |live| - 1))
      && (Ended(a) ==> live != [] && live[|live| - 1] == a[End(a)])
  {
    var a := t.attempts(m);
    NoEarlyEnd(t, m);
    PassedOpen(a, End(a));
    EndsWith(Live(t, m), Before(t, m), PassedUpTo(a, End(a)), if Ended(a) then Held(UsageUpTo(a, End(a))) else [],
             if Ended(a) then [a[End(a)]] else []);
  }

  lemma {:induction false} EndsWith(live: seq<Event>, x: seq<Event>, y: seq<Event>, z: seq<Event>, last: seq<Event>)
    requires NoTerminal(x) && NoTerminal(y) && NoTerminal(z) && |last| <= 1 && (last != [] ==> Terminal(last[0]))
    requires live == x + (y + (z + last))
    ensures forall i :: 0 <= i < |live| ==> (Terminal(live[i]) <==> last != [] && i == |live| - 1)
    ensures last != [] ==> live != [] && live[|live| - 1] == last[0]
  {
    var early := x + y + z;
    assert live == early + last;
    assert NoTerminal(early);
  }

  /******* Text *******/

  ghost function TextOf(events: seq<Event>): string
  {
    TextUpTo(events, |events|)
  }

  lemma {:induction false} TextOfBoth(x: seq<Event>, y: seq<Event>)
    ensures TextOf(x + y) == TextOf(x) + TextOf(y)
    decreases y
  {
    if y == [] {
      assert x + y == x;
    } else {
      var last := |y| - 1;
      TextOfBoth(x, y[..last]);
      TextPrefix(x + y, x + y[..last], |x| + last);
      TextPrefix(y, y[..last], last);
    }
  }

  lemma {:induction false} TextPrefix(x: seq<Event>, y: seq<Event>, n: nat)
    requires n <= |x| && n <= |y| && x[..n] == y[..n]
    ensures TextUpTo(x, n) == TextUpTo(y, n)
  {
    if n > 0 {
      assert x[n - 1] == x[..n][n - 1] == y[..n][n - 1] == y[n - 1];
      assert x[..n - 1] == x[..n][..n - 1] && y[..n - 1] == y[..n][..n - 1];
      TextPrefix(x, y, n - 1);
    }
  }

  ghost function FramesUpTo(a: seq<Event>, n: nat): seq<Frame>
    requires n <= |a|
  {
    if n == 0 then [] else FramesUpTo(a, n - 1) + if a[n - 1].Usage? then [a[n - 1].frame] else []
  }

  ghost function FramesOf(events: seq<Event>): seq<Frame>
  {
    FramesUpTo(events, |events|)
  }

  lemma {:induction false} FramesPrefix(x: seq<Event>, y: seq<Event>, n: nat)
    requires n <= |x| && n <= |y| && x[..n] == y[..n]
    ensures FramesUpTo(x, n) == FramesUpTo(y, n)
  {
    if n > 0 {
      assert x[n - 1] == x[..n][n - 1] == y[..n][n - 1] == y[n - 1];
      assert x[..n - 1] == x[..n][..n - 1] && y[..n - 1] == y[..n][..n - 1];
      FramesPrefix(x, y, n - 1);
    }
  }

  lemma {:induction false} FramesOfBoth(x: seq<Event>, y: seq<Event>)
    ensures FramesOf(x + y) == FramesOf(x) + FramesOf(y)
    decreases y
  {
    if y == [] {
      assert x + y == x;
    } else {
      var last := |y| - 1;
      FramesOfBoth(x, y[..last]);
      FramesPrefix(x + y, x + y[..last], |x| + last);
      FramesPrefix(y, y[..last], last);
    }
  }

  lemma {:induction false} OfOne(e: Event)
    ensures TextOf([e]) == if e.Text? then e.content else ""
    ensures FramesOf([e]) == if e.Usage? then [e.frame] else []
  {
    assert TextUpTo([e], 0) == "" && FramesUpTo([e], 0) == [];
  }

  lemma {:induction false} PassedText(a: Attempt, n: nat)
    requires n <= |a|
    ensures TextOf(PassedUpTo(a, n)) == TextUpTo(a, n)
  {
    if n > 0 {
      PassedText(a, n - 1);
      OfOne(a[n - 1]);
      TextOfBoth(PassedUpTo(a, n - 1), if a[n - 1].Usage? then [] else [a[n - 1]]);
    }
  }

  lemma {:induction false} PassedFrames(a: Attempt, n: nat)
    requires n <= |a|
    ensures FramesOf(PassedUpTo(a, n)) == []
  {
    if n > 0 {
      PassedFrames(a, n - 1);
      OfOne(a[n - 1]);
      FramesOfBoth(PassedUpTo(a, n - 1), if a[n - 1].Usage? then [] else [a[n - 1]]);
    }
  }

  // The text thrown away is blank: it only shows as white space.
  lemma {:induction false} BeforeIsBlank(t: Turn, k: nat)
    requires Making(t, k)
    ensures Text.AllSpace(TextOf(Before(t, k)))
  {
    if k > 1 {
      BeforeIsBlank(t, k - 1);
      var live := BlankAttempt(t, k);
      TextOfBoth(Before(t, k - 1), live);
    }
  }

  lemma {:induction false} BlankAttempt(t: Turn, k: nat) returns (live: seq<Event>)
    requires Making(t, k) && k >= 2
    ensures Before(t, k) == Before(t, k - 1) + live && Text.AllSpace(TextOf(live)) && FramesOf(live) == []
  {
    assert Retries(t, k - 1);
    live := LiveOf(t.attempts(k - 1), k - 1, t.max, t.minTokens);
    DiscardedIsBlank(t.attempts(k - 1), k - 1, t.max, t.minTokens);
    LiveFrames(t.attempts(k - 1), k - 1, t.max, t.minTokens);
  }

  lemma {:induction false} DiscardedIsBlank(a: Attempt, k: nat, max: int, minTokens: int)
    requires Discarded(a, k, max, minTokens)
    ensures Text.AllSpace(TextOf(LiveOf(a, k, max, minTokens)))
  {
    PassedText(a, End(a));
    OfOne(Retrying(k + 1, max - 1));
    TextOfBoth(PassedUpTo(a, End(a)), [Retrying(k + 1, max - 1)]);
    Text.StripMeaning(TextUpTo(a, End(a)));
  }

  lemma {:induction false} KeptText(a: Attempt, k: nat, max: int, minTokens: int)
    requires !Discarded(a, k, max, minTokens)
    ensures TextOf(LiveOf(a, k, max, minTokens)) == TextUpTo(a, End(a))
  {
    PassedText(a, End(a));
    var usage := UsageUpTo(a, End(a));
    if Ended(a) {
      OfOne(a[End(a)]);
      if usage.Some? {
        OfOne(Usage(usage.value));
      }
      TextOfBoth(Held(usage), [a[End(a)]]);
      TextOfBoth(PassedUpTo(a, End(a)), Held(usage) + [a[End(a)]]);
    } else {
      assert LiveOf(a, k, max, minTokens) == PassedUpTo(a, End(a));
    }
  }

  /**
   * The text delivered, stripped, is the text of the last attempt, stripped: what
   * the client saw of the others was white space.
   */
  lemma {:induction false} DeliveredText(t: Turn, m: nat)
    requires t.max >= 1 && Made(t, m)
    ensures Text.Strip(TextOf(Live(t, m))) == Text.Strip(TextUpTo(t.attempts(m), End(t.attempts(m))))
  {
    var a := t.attempts(m);
    BeforeIsBlank(t, m);
    KeptText(a, m, t.max, t.minTokens);
    TextOfBoth(Before(t, m), LiveOf(a, m, t.max, t.minTokens));
    Text.StripAfterSpace(TextOf(Before(t, m)), TextUpTo(a, End(a)));
  }

  /******* Usage *******/

  // The frames that the first attempts sent before they ended.
  ghost function Sent(t: Turn, k: nat): seq<Frame>
  {
    if k <= 1 then [] else Sent(t, k - 1) + FramesUpTo(t.attempts(k - 1), End(t.attempts(k - 1)))
  }

  // The frames a turn of `m` attempts accounts for: set aside, or live.
  ghost function Reported(t: Turn, m: nat): seq<Frame>
  {
    Aside(t, m) + FramesOf(Live(t, m))
  }

  // Every frame of this attempt is accounted for: there is at most one, and the
  // attempt ended properly if there is one.
  ghost predicate Accounted(a: Attempt)
  {
    |FramesUpTo(a, End(a))| <= if Ended(a) then 1 else 0
  }

  lemma {:induction false} HeldIsLast(a: Attempt, n: nat)
    requires n <= |a|
    ensures var frames := FramesUpTo(a, n);
      HeldFrame(UsageUpTo(a, n)) == if frames == [] then [] else [frames[|frames| - 1]]
  {
    if n > 0 {
      HeldIsLast(a, n - 1);
    }
  }

  lemma {:induction false} LiveFrames(a: Attempt, k: nat, max: int, minTokens: int)
    ensures FramesOf(LiveOf(a, k, max, minTokens)) ==
      if Ended(a) && !Discarded(a, k, max, minTokens) then HeldFrame(UsageUpTo(a, End(a))) else []
  {
    PassedFrames(a, End(a));
    var usage := UsageUpTo(a, End(a));
    if Discarded(a, k, max, minTokens) {
      OfOne(Retrying(k + 1, max - 1));
      FramesOfBoth(PassedUpTo(a, End(a)), [Retrying(k + 1, max - 1)]);
    } else if Ended(a) {
      OfOne(a[End(a)]);
      if usage.Some? {
        OfOne(Usage(usage.value));
      }
      FramesOfBoth(Held(usage), [a[End(a)]]);
      FramesOfBoth(PassedUpTo(a, End(a)), Held(usage) + [a[End(a)]]);
    } else {
      assert LiveOf(a, k, max, minTokens) == PassedUpTo(a, End(a));
    }
  }

  lemma {:induction false} NoLiveFramesBefore(t: Turn, k: nat)
    requires Making(t, k)
    ensures FramesOf(Before(t, k)) == []
  {
    if k > 1 {
      NoLiveFramesBefore(t, k - 1);
      var live := BlankAttempt(t, k);
      FramesOfBoth(Before(t, k - 1), live);
    }
  }

  // Some of the frames, in order; all of them if there are as many.
  ghost predicate PartOf(some: seq<Frame>, all: seq<Frame>)
  {
    multiset(some) <= multiset(all) && |some| <= |all| && (|some| == |all| ==> some == all)
  }

  lemma {:induction false} PartOfBoth(x: seq<Frame>, all: seq<Frame>, y: seq<Frame>, more: seq<Frame>)
    requires PartOf(x, all) && PartOf(y, more)
    ensures PartOf(x + y, all + more)
    ensures |x + y| == |all + more| <==> |x| == |all| && |y| == |more|
  {
    assert multiset(x + y) == multiset(x) + multiset(y) && multiset(all + more) == multiset(all) + multiset(more);
  }

  lemma {:induction false} HeldPart(a: Attempt)
    requires Ended(a)
    ensures var held, frames := HeldFrame(UsageUpTo(a, End(a))), FramesUpTo(a, End(a));
      PartOf(held, frames) && (|held| == |frames| <==> Accounted(a))
  {
    HeldIsLast(a, End(a));
    LastPart(FramesUpTo(a, End(a)));
  }

  lemma {:induction false} LastPart(frames: seq<Frame>)
    ensures PartOf(if frames == [] then [] else [frames[|frames| - 1]], frames)
  {
  }

  ghost predicate AllAccounted(t: Turn, k: nat)
  {
    forall i: nat :: 1 <= i < k ==> Accounted(t.attempts(i))
  }

  lemma {:induction false} AllAccountedOneMore(t: Turn, k: nat)
    requires k >= 2
    ensures AllAccounted(t, k) <==> AllAccounted(t, k - 1) && Accounted(t.attempts(k - 1))
  {
  }

  // What is set aside, against what was sent.
  lemma {:induction false} AsideOfSent(t: Turn, k: nat)
    requires Making(t, k)
    ensures PartOf(Aside(t, k), Sent(t, k)) && (|Aside(t, k)| == |Sent(t, k)| <==> AllAccounted(t, k))
  {
    if k > 1 {
      var a := t.attempts(k - 1);
      AsideOfSent(t, k - 1);
      assert Retries(t, k - 1);
      HeldPart(a);
      PartOfBoth(Aside(t, k - 1), Sent(t, k - 1), HeldFrame(UsageUpTo(a, End(a))), FramesUpTo(a, End(a)));
      AllAccountedOneMore(t, k);
    }
  }

  // What the last attempt reports live, against what it sent.
  lemma {:induction false} LiveOfSent(t: Turn, m: nat)
    requires Made(t, m) && m >= 1
    ensures var live, frames := FramesOf(Live(t, m)), FramesUpTo(t.attempts(m), End(t.attempts(m)));
      PartOf(live, frames) && (|live| == |frames| <==> Accounted(t.attempts(m)))
  {
    var a := t.attempts(m);
    NoLiveFramesBefore(t, m);
    LiveFrames(a, m, t.max, t.minTokens);
    FramesOfBoth(Before(t, m), LiveOf(a, m, t.max, t.minTokens));
    if Ended(a) {
      HeldPart(a);
    }
  }

  /**
   * No frame is made up, and every frame sent is accounted for, once and in order,
   * exactly if each attempt sent at most one, and none without ending properly.
   */
  lemma {:induction false} UsageAccounted(t: Turn, m: nat)
    requires Made(t, m) && m >= 1
    ensures multiset(Reported(t, m)) <= multiset(Sent(t, m + 1)) && |Reported(t, m)| <= |Sent(t, m + 1)|
    ensures |Reported(t, m)| == |Sent(t, m + 1)| <==> AllAccounted(t, m + 1)
    ensures Reported(t, m) == Sent(t, m + 1) <==> AllAccounted(t, m + 1)
  {
    AsideOfSent(t, m);
    LiveOfSent(t, m);
    PartOfBoth(Aside(t, m), Sent(t, m), FramesOf(Live(t, m)), FramesUpTo(t.attempts(m), End(t.attempts(m))));
    AllAccountedOneMore(t, m + 1);
  }

  /** Of two frames in one attempt only the later one is reported. */
  lemma {:induction false} EarlierFrameIsLost(f: Frame, g: Frame) returns (t: Turn)
    ensures Made(t, 1) && Sent(t, 2) == [f, g] && Reported(t, 1) == [g]
  {
    var a := [Usage(f), Usage(g), Done];
    t := Turn(_ => a, 1, 0);
    TwoFrames(a, f, g);
    assert !Discarded(a, 1, 1, 0);
    LiveFrames(a, 1, 1, 0);
    OnlyAttempt(t);
  }

  lemma {:induction false} TwoFrames(a: Attempt, f: Frame, g: Frame)
    requires a == [Usage(f), Usage(g), Done]
    ensures End(a) == 2 && Ended(a) && FramesUpTo(a, 2) == [f, g] && UsageUpTo(a, 2) == Some(g)
  {
    assert a[0] == Usage(f) && a[1] == Usage(g);
    assert EndFrom(a, 2) == 2 && EndFrom(a, 1) == 2;
    assert FramesUpTo(a, 0) == [] && FramesUpTo(a, 1) == [f];
  }

  /** The frame of an attempt that just stops is not reported. */
  lemma {:induction false} FrameOfACutIsLost(f: Frame) returns (t: Turn)
    ensures Made(t, 1) && Sent(t, 2) == [f] && Reported(t, 1) == []
  {
    var a := [Usage(f)];
    t := Turn(_ => a, 1, 0);
    assert EndFrom(a, 1) == 1 && End(a) == 1;
    assert FramesUpTo(a, 0) == [] && FramesUpTo(a, 1) == [f];
    LiveFrames(a, 1, 1, 0);
    OnlyAttempt(t);
  }

  lemma {:induction false} OnlyAttempt(t: Turn)
    ensures Live(t, 1) == LiveOf(t.attempts(1), 1, t.max, t.minTokens) && Aside(t, 1) == []
    ensures Sent(t, 2) == FramesUpTo(t.attempts(1), End(t.attempts(1)))
  {
    assert Before(t, 1) == [] && Sent(t, 1) == [];
  }
}
