/** Streaming one turn: events pass through live, and blank answers are retried. */
module TurnStream {
  import Text
  import opened Wrappers

  // The reported output tokens of each model; an entry without a number counts as 0.
  datatype Frame = Frame(outputTokens: seq<int>)

  datatype Event =
    | Text(content: string)
    | Usage(frame: Frame)
    | Error(message: string)
    | Done
    | Retrying(attempt: nat, maxRetries: int)
    | Other(kind: string)

  // The events that the inner stream of one attempt yields before it ends.
  type Attempt = seq<Event>

  predicate Terminal(e: Event)
  {
    e.Done? || e.Error?
  }

  /******* One attempt *******/

  // Everything from position `n` on, up to the first terminal event, is consumed.
  function EndFrom(a: Attempt, n: nat): (end: nat)
    requires n <= |a|
    ensures n <= end <= |a| && (end < |a| ==> Terminal(a[end])) && forall i :: n <= i < end ==> !Terminal(a[i])
    decreases |a| - n
  {
    if n == |a| || Terminal(a[n]) then n else EndFrom(a, n + 1)
  }

  function End(a: Attempt): nat
  {
    EndFrom(a, 0)
  }

  predicate Ended(a: Attempt)
  {
    End(a) < |a|
  }

  // The text, the latest usage frame and the events passed on, in the first `n` events.
  function TextUpTo(a: Attempt, n: nat): string
    requires n <= |a|
  {
    if n == 0 then "" else TextUpTo(a, n - 1) + if a[n - 1].Text? then a[n - 1].content else ""
  }

  function UsageUpTo(a: Attempt, n: nat): Option<Frame>
    requires n <= |a|
  {
    if n == 0 then None else if a[n - 1].Usage? then Some(a[n - 1].frame) else UsageUpTo(a, n - 1)
  }

  function PassedUpTo(a: Attempt, n: nat): seq<Event>
    requires n <= |a|
  {
    if n == 0 then [] else PassedUpTo(a, n - 1) + if a[n - 1].Usage? then [] else [a[n - 1]]
  }

  function Sum(tokens: seq<int>): int
  {
    if tokens == [] then 0 else tokens[0] + Sum(tokens[1..])
  }

  // No real text, and fewer output tokens than the configured floor.
  predicate IsNonAnswer(text: string, usage: Option<Frame>, minTokens: int)
  {
    Text.Strip(text) == "" && Sum(if usage.Some? then usage.value.outputTokens else []) < minTokens
  }

  // Attempt number `k` of `max` came to an end and is thrown away.
  predicate Discarded(a: Attempt, k: nat, max: int, minTokens: int)
  {
    Ended(a) && a[End(a)].Done? && k < max && IsNonAnswer(TextUpTo(a, End(a)), UsageUpTo(a, End(a)), minTokens)
  }

  function Held(usage: Option<Frame>): seq<Event>
  {
    if usage.Some? then [Usage(usage.value)] else []
  }

  function HeldFrame(usage: Option<Frame>): seq<Frame>
  {
    if usage.Some? then [usage.value] else []
  }

  // What an attempt adds to the live stream.
  function LiveOf(a: Attempt, k: nat, max: int, minTokens: int): seq<Event>
  {
    PassedUpTo(a, End(a)) +
    if Discarded(a, k, max, minTokens) then [Retrying(k + 1, max - 1)]
    else if Ended(a) then Held(UsageUpTo(a, End(a))) + [a[End(a)]]
    else []
  }

  /******* One turn *******/

  // The settings, and what the inner stream of each attempt would yield.
  datatype Turn = Turn(attempts: nat -> Attempt, max: int, minTokens: int)

  ghost predicate Retries(t: Turn, k: nat)
  {
    Discarded(t.attempts(k), k, t.max, t.minTokens)
  }

  // Every attempt before the `k`-th was thrown away.
  ghost predicate Making(t: Turn, k: nat)
  {
    forall i: nat :: 1 <= i < k ==> Retries(t, i)
  }

  // The turn makes `k` attempts: all but the last one are thrown away.
  ghost predicate Made(t: Turn, k: nat)
  {
    if t.max < 1 then k == 0 else 1 <= k <= t.max && Making(t, k) && !Retries(t, k)
  }

  // What the attempts before the `k`-th yield, and which frames they set aside.
  ghost function Before(t: Turn, k: nat): seq<Event>
  {
    if k <= 1 then [] else Before(t, k - 1) + LiveOf(t.attempts(k - 1), k - 1, t.max, t.minTokens)
  }

  ghost function Aside(t: Turn, k: nat): seq<Frame>
  {
    if k <= 1 then [] else Aside(t, k - 1) + HeldFrame(UsageUpTo(t.attempts(k - 1), End(t.attempts(k - 1))))
  }

  // What a turn of `m` attempts yields.
  ghost function Live(t: Turn, m: nat): seq<Event>
  {
    Before(t, m) + if m == 0 then [] else LiveOf(t.attempts(m), m, t.max, t.minTokens)
  }

  // The events of one attempt: usage is held back until the attempt's fate is known.
  method StreamEvents(a: Attempt, k: nat, max: int, minTokens: int)
    returns (live: seq<Event>, usage: Option<Frame>, retry: bool)
    ensures usage == UsageUpTo(a, End(a)) && (retry <==> Discarded(a, k, max, minTokens))
    ensures live == PassedUpTo(a, End(a)) + if Ended(a) && !retry then Held(usage) + [a[End(a)]] else []
  {
    live, usage := [], None;
    var text := "";
    for n := 0 to |a|
      invariant EndFrom(a, n) == End(a)
      invariant text == TextUpTo(a, n) && usage == UsageUpTo(a, n) && live == PassedUpTo(a, n)
    {
      match a[n]
      case Usage(frame) =>
        usage := Some(frame);
      case Text(content) =>
        text := text + content;
        live := live + [a[n]];
      case Error(_) =>
        return live + (Held(usage) + [a[n]]), usage, false;
      case Done =>
        if k < max && IsNonAnswer(text, usage, minTokens) {
          return live, usage, true;
        }
        return live + (Held(usage) + [a[n]]), usage, false;
      case _ =>
        live := live + [a[n]];
    }
    retry := false;
  }

  // The state between two attempts: `k` is the next one.
  ghost predicate Between(t: Turn, k: nat, live: seq<Event>, retried: seq<Frame>)
  {
    Making(t, k) && live == Before(t, k) && retried == Aside(t, k)
  }

  ghost predicate WholeTurn(t: Turn, m: nat, live: seq<Event>, retried: seq<Frame>)
  {
    Made(t, m) && live == Live(t, m) && retried == Aside(t, m)
  }

  lemma {:induction false} MakingOneMore(t: Turn, k: nat)
    requires k >= 1 && Making(t, k) && Retries(t, k)
    ensures Making(t, k + 1)
  {
  }

  // What the attempt that comes next adds.
  lemma {:induction false} BeforeOneMore(t: Turn, k: nat)
    requires k >= 1
    ensures Before(t, k + 1) == Before(t, k) + LiveOf(t.attempts(k), k, t.max, t.minTokens)
    ensures Aside(t, k + 1) == Aside(t, k) + HeldFrame(UsageUpTo(t.attempts(k), End(t.attempts(k))))
  {
  }

  lemma {:induction false} ThrownAway(t: Turn, k: nat, live: seq<Event>, retried: seq<Frame>, events: seq<Event>,
                                      frames: seq<Frame>)
    requires k >= 1 && Between(t, k, live, retried) && Retries(t, k)
    requires events == LiveOf(t.attempts(k), k, t.max, t.minTokens)
    requires frames == HeldFrame(UsageUpTo(t.attempts(k), End(t.attempts(k))))
    ensures Between(t, k + 1, live + events, retried + frames)
  {
    MakingOneMore(t, k);
    BeforeOneMore(t, k);
  }

  lemma {:induction false} Kept(t: Turn, k: nat, live: seq<Event>, retried: seq<Frame>, events: seq<Event>)
    requires 1 <= k <= t.max && Between(t, k, live, retried) && !Retries(t, k)
    requires events == LiveOf(t.attempts(k), k, t.max, t.minTokens)
    ensures WholeTurn(t, k, live + events, retried)
  {
  }

  // One attempt, and the notice that another one follows.
  method StreamAttempt(a: Attempt, k: nat, max: int, minTokens: int)
    returns (events: seq<Event>, frames: seq<Frame>, retry: bool)
    ensures events == LiveOf(a, k, max, minTokens) && (retry <==> Discarded(a, k, max, minTokens))
    ensures retry ==> frames == HeldFrame(UsageUpTo(a, End(a)))
  {
    var usage;
    events, usage, retry := StreamEvents(a, k, max, minTokens);
    frames := [];
    if retry {
      events, frames := events + [Retrying(k + 1, max - 1)], HeldFrame(usage);
    }
  }

  method NextAttempt(t: Turn, k: nat, sofar: seq<Event>, retriedSofar: seq<Frame>)
    returns (live: seq<Event>, retried: seq<Frame>, retry: bool)
    requires 1 <= k <= t.max && Between(t, k, sofar, retriedSofar)
    ensures retry ==> k < t.max && Between(t, k + 1, live, retried)
    ensures !retry ==> WholeTurn(t, k, live, retried)
  {
    var events, frames;
    events, frames, retry := StreamAttempt(t.attempts(k), k, t.max, t.minTokens);
    live, retried := sofar + events, retriedSofar;
    if retry {
      retried := retriedSofar + frames;
      ThrownAway(t, k, sofar, retriedSofar, events, frames);
    } else {
      Kept(t, k, sofar, retriedSofar, events);
    }
  }

  // One turn: attempts until one is kept, fails or just ends.
  method StreamTurn(attempts: nat -> Attempt, retryMax: int, minTokens: int)
    returns (live: seq<Event>, retried: seq<Frame>, made: nat)
    ensures WholeTurn(Turn(attempts, retryMax + 1, minTokens), made, live, retried)
  {
    var t := Turn(attempts, retryMax + 1, minTokens);
    live, retried, made := [], [], 0;
    while made + 1 <= t.max
      invariant (made > 0 ==> made < t.max) && Between(t, made + 1, live, retried)
      decreases t.max - made
    {
      var retry;
      live, retried, retry := NextAttempt(t, made + 1, live, retried);
      made := made + 1;
      if !retry {
        return;
      }
    }
  }
}
